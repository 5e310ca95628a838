/**
 * UserManagement: the administrator's user table. Users arrive as JSON
 * values; the component keeps the fetched list and its filtered view, the
 * edit form, and the error and success banners. A TypeError that the
 * source would throw (a method called on a value of the wrong type) is an
 * explicit None where it can happen.
 */
module UserManagement {
  import opened Wrappers
  import opened Text
  import opened Lists
  import opened JsValues
  import opened Dates

  // ---- search ------------------------------------------------------------

  /** v?.toLowerCase().includes(term): false for undefined or null, None (a TypeError) for a non-string. */
  function TextHit(v: Option<Json>, term: string): (r: Option<bool>)
    ensures r.None? <==> v.Some? && !v.value.JNull? && !v.value.JStr?
    ensures r == Some(true) <==> v.Some? && v.value.JStr? && Contains(Lower(v.value.s), term)
  {
    if v.None? || v.value.JNull? then Some(false)
    else if v.value.JStr? then Some(Contains(Lower(v.value.s), term))
    else None
  }

  /** roles.some(role => role.toLowerCase().includes(term)), which stops at the first hit. */
  function RolesHit(roles: seq<Json>, term: string): (r: Option<bool>)
    ensures (forall k :: 0 <= k < |roles| ==> roles[k].JStr?) ==>
      r == Some(exists k :: 0 <= k < |roles| && Contains(Lower(roles[k].s), term))
  {
    if roles == [] then Some(false)
    else if !roles[0].JStr? then None
    else if Contains(Lower(roles[0].s), term) then Some(true)
    else
      var rest := RolesHit(roles[1..], term);
      assert forall k :: 1 <= k < |roles| ==> roles[k] == roles[1..][k - 1];
      rest
  }

  /** The `||` chain of the filter, evaluated left to right; reading a field of a null user throws. */
  function UserHit(u: Json, term: string): (r: Option<bool>)
    ensures u.JNull? ==> r.None?
    ensures !u.JNull? && !u.JObj? ==> r == Some(false)
    ensures FieldHas(u, "username", term) ==> r == Some(true)
  {
    if u.JNull? then None
    else
      var byName := TextHit(Field(Some(u), "username"), term);
      if byName != Some(false) then byName
      else
        var byEmail := TextHit(Field(Some(u), "email"), term);
        if byEmail != Some(false) then byEmail
        else
          var byFullName := TextHit(Field(Some(u), "fullName"), term);
          if byFullName != Some(false) then byFullName
          else
            var roles := Field(Some(u), "roles");
            if roles.None? || roles.value.JNull? then Some(false)
            else if roles.value.JArr? then RolesHit(roles.value.items, term)
            else None
  }

  /** users.filter(...): the kept users in order, or None when the filter throws for some user. */
  function FilterHits(users: seq<Json>, term: string): (r: Option<seq<Json>>)
    ensures r.Some? <==> forall k :: 0 <= k < |users| ==> UserHit(users[k], term).Some?
    ensures r.Some? ==> r.value == Filter(users, u => UserHit(u, term) == Some(true))
  {
    if users == [] then Some([])
    else
      var head := UserHit(users[0], term);
      var rest := FilterHits(users[1..], term);
      assert forall k :: 1 <= k < |users| ==> users[k] == users[1..][k - 1];
      if head.None? || rest.None? then None
      else Some((if head.value then [users[0]] else []) + rest.value)
  }

  /** The shape the back end sends: an object whose text fields are strings or null and whose roles are strings. */
  predicate WellShaped(u: Json) {
    && u.JObj?
    && (forall key :: key in {"username", "email", "fullName"} && key in u.fields ==> u.fields[key].JStr? || u.fields[key].JNull?)
    && ("roles" in u.fields ==>
          (u.fields["roles"].JNull? ||
           (u.fields["roles"].JArr? && forall k :: 0 <= k < |u.fields["roles"].items| ==> u.fields["roles"].items[k].JStr?)))
  }

  /** A text field's lower-cased text contains the term. */
  predicate FieldHas(u: Json, key: string, term: string) {
    u.JObj? && key in u.fields && u.fields[key].JStr? && Contains(Lower(u.fields[key].s), term)
  }

  /** Some role string's lower-cased text contains the term. */
  predicate RoleHas(u: Json, term: string) {
    u.JObj? && "roles" in u.fields && u.fields["roles"].JArr?
    && exists k :: 0 <= k < |u.fields["roles"].items| && u.fields["roles"].items[k].JStr?
         && Contains(Lower(u.fields["roles"].items[k].s), term)
  }

  /** On well-shaped users the filter never throws and keeps a user iff a text field or a role matches. */
  lemma WellShapedHit(u: Json, term: string)
    requires WellShaped(u)
    ensures UserHit(u, term).Some?
    ensures UserHit(u, term) == Some(true) <==>
      FieldHas(u, "username", term) || FieldHas(u, "email", term) || FieldHas(u, "fullName", term) || RoleHas(u, term)
  {
    if "roles" in u.fields && u.fields["roles"].JArr? {
      var items := u.fields["roles"].items;
      assert RolesHit(items, term) == Some(exists k :: 0 <= k < |items| && Contains(Lower(items[k].s), term));
    }
  }

  /** handleSearch's list: all users for an empty term, the filter for any other (lower-cased) term. */
  function SearchUsers(users: seq<Json>, input: string): (r: Option<seq<Json>>)
    ensures Lower(input) == [] ==> r == Some(users)
    ensures Lower(input) != [] ==> r == FilterHits(users, Lower(input))
  {
    var term := Lower(input);
    if term == [] then Some(users) else FilterHits(users, term)
  }

  /** On well-shaped users a search never throws, keeps the original order, and keeps exactly the matching users. */
  lemma SearchWellShaped(users: seq<Json>, input: string)
    requires Lower(input) != []
    requires forall k :: 0 <= k < |users| ==> WellShaped(users[k])
    ensures SearchUsers(users, input).Some?
    ensures forall k :: 0 <= k < |users| ==>
      (users[k] in SearchUsers(users, input).value <==>
        var t := Lower(input);
        FieldHas(users[k], "username", t) || FieldHas(users[k], "email", t) || FieldHas(users[k], "fullName", t) || RoleHas(users[k], t))
  {
    var t := Lower(input);
    forall k | 0 <= k < |users| ensures UserHit(users[k], t).Some? {
      WellShapedHit(users[k], t);
    }
    var r := SearchUsers(users, input).value;
    forall k | 0 <= k < |users|
      ensures users[k] in r <==> FieldHas(users[k], "username", t) || FieldHas(users[k], "email", t) || FieldHas(users[k], "fullName", t) || RoleHas(users[k], t)
    {
      WellShapedHit(users[k], t);
      if users[k] in r {
        var j :| 0 <= j < |r| && r[j] == users[k];
        assert UserHit(r[j], t) == Some(true);
      }
    }
  }

  /** A role object (as a Role entity serialises) makes the search throw once no earlier field matched. */
  lemma RoleObjectThrows(term: string)
    requires term != [] && !Contains(Lower("ann"), term)
    ensures var u := JObj(map["username" := JStr("ann"), "roles" := JArr([JObj(map["name" := JStr("ROLE_USER")])])]);
      FilterHits([u], term).None?
  {
    var u := JObj(map["username" := JStr("ann"), "roles" := JArr([JObj(map["name" := JStr("ROLE_USER")])])]);
    assert TextHit(Field(Some(u), "username"), term) == Some(false);
    assert UserHit(u, term).None?;
  }

  // ---- the edit form -----------------------------------------------------

  datatype EditForm = EditForm(username: string, email: string, fullName: string, enrollmentDate: string, roles: seq<Json>)

  const EmptyForm: EditForm := EditForm("", "", "", "", [])

  /**
   * handleEditUser's role normalisation: a string is kept, a truthy name gets
   * the prefix, a truthy authority is kept as it is (of whatever type), and
   * anything else becomes String(role).
   */
  function RoleValue(role: Json): (r: Json)
    ensures role.JStr? ==> r == role
    ensures !role.JStr? && TruthyOpt(Field(Some(role), "name")) ==>
      r == JStr("ROLE_" + ToJsString(Field(Some(role), "name").value))
    ensures !role.JStr? && !TruthyOpt(Field(Some(role), "name")) && TruthyOpt(Field(Some(role), "authority")) ==>
      r == Field(Some(role), "authority").value
    ensures !role.JStr? && !TruthyOpt(Field(Some(role), "name")) && !TruthyOpt(Field(Some(role), "authority")) ==>
      r == JStr(ToJsString(role))
    ensures !r.JStr? ==> !TruthyOpt(Field(Some(role), "name")) && r == Field(Some(role), "authority").value
  {
    if role.JStr? then role
    else if TruthyOpt(Field(Some(role), "name")) then JStr("ROLE_" + ToJsString(Field(Some(role), "name").value))
    else if TruthyOpt(Field(Some(role), "authority")) then Field(Some(role), "authority").value
    else JStr(ToJsString(role))
  }

  /** The three shapes agree: "ROLE_X", {name: "X"} and {authority: "ROLE_X"} all give "ROLE_X". */
  lemma RoleShapesAgree(x: string)
    requires x != ""
    ensures RoleValue(JStr("ROLE_" + x)) == JStr("ROLE_" + x)
    ensures RoleValue(JObj(map["name" := JStr(x)])) == JStr("ROLE_" + x)
    ensures RoleValue(JObj(map["authority" := JStr("ROLE_" + x)])) == JStr("ROLE_" + x)
  {
  }

  /** A name that already carries the prefix gets it twice. */
  lemma PrefixedNameDoubled()
    ensures RoleValue(JObj(map["name" := JStr("ROLE_ADMIN")])) == JStr("ROLE_ROLE_ADMIN")
  {
  }

  /** The form's roles: each role normalised when roles is an array, otherwise none. */
  function FormRoles(user: Json): (r: seq<Json>)
    ensures var roles := Field(Some(user), "roles");
      roles.Some? && roles.value.JArr? ==> |r| == |roles.value.items| && forall k :: 0 <= k < |r| ==> r[k] == RoleValue(roles.value.items[k])
    ensures var roles := Field(Some(user), "roles");
      !(roles.Some? && roles.value.JArr?) ==> r == []
  {
    var roles := Field(Some(user), "roles");
    if roles.Some? && roles.value.JArr? then
      var items := roles.value.items;
      seq(|items|, k requires 0 <= k < |items| => RoleValue(items[k]))
    else []
  }

  /** `v || ""` for a text field. */
  function TextOr(v: Option<Json>): string {
    if v.Some? && v.value.JStr? then v.value.s else ""
  }

  /** The part of a date-time text before its first 'T'. */
  function DatePart(v: Option<Json>): (r: string)
    requires TruthyOpt(v) && v.value.JStr?
    ensures r == BeforeFirst(v.value.s, 'T')
  {
    BeforeFirst(v.value.s, 'T')
  }

  /**
   * The form's date: enrollmentDate before its 'T', else createdAt before its
   * 'T', else empty. None (a TypeError) when the truthy value chosen is not a
   * string, since only strings have split.
   */
  function FormDate(user: Json): (r: Option<string>)
    ensures var e := Field(Some(user), "enrollmentDate"); var c := Field(Some(user), "createdAt");
      r.None? <==> (TruthyOpt(e) && !e.value.JStr?) || (!TruthyOpt(e) && TruthyOpt(c) && !c.value.JStr?)
    ensures var e := Field(Some(user), "enrollmentDate");
      TruthyOpt(e) && e.value.JStr? ==> r == Some(BeforeFirst(e.value.s, 'T'))
    ensures var e := Field(Some(user), "enrollmentDate"); var c := Field(Some(user), "createdAt");
      !TruthyOpt(e) && TruthyOpt(c) && c.value.JStr? ==> r == Some(BeforeFirst(c.value.s, 'T'))
    ensures !TruthyOpt(Field(Some(user), "enrollmentDate")) && !TruthyOpt(Field(Some(user), "createdAt")) ==> r == Some("")
    ensures r.Some? ==> 'T' !in r.value
  {
    var e := Field(Some(user), "enrollmentDate");
    var c := Field(Some(user), "createdAt");
    if TruthyOpt(e) then (if e.value.JStr? then Some(DatePart(e)) else None)
    else if TruthyOpt(c) then (if c.value.JStr? then Some(DatePart(c)) else None)
    else Some("")
  }

  /** The form handleEditUser fills in; None when reading the user throws (a null user, or a date without split). */
  function FormFor(user: Json): (f: Option<EditForm>)
    ensures f.None? <==> user.JNull? || FormDate(user).None?
    ensures f.Some? ==> f.value.username == TextOr(Field(Some(user), "username")) && f.value.email == TextOr(Field(Some(user), "email"))
    ensures f.Some? ==> f.value.fullName == TextOr(Field(Some(user), "fullName"))
    ensures f.Some? ==> f.value.enrollmentDate == FormDate(user).value && f.value.roles == FormRoles(user)
  {
    if user.JNull? then None
    else
      match FormDate(user)
      case None => None
      case Some(date) =>
        Some(EditForm(TextOr(Field(Some(user), "username")), TextOr(Field(Some(user), "email")),
                      TextOr(Field(Some(user), "fullName")), date, FormRoles(user)))
  }

  /**
   * handleRoleChange: a checked value is appended, an unchecked one removed
   * wherever it occurs (`role !== value`, so only the equal string goes).
   */
  function RoleToggled(f: EditForm, value: string, checked: bool): (r: EditForm)
    ensures r == f.(roles := r.roles)
    ensures checked ==> r.roles == f.roles + [JStr(value)]
    ensures !checked ==> JStr(value) !in r.roles && forall k :: 0 <= k < |f.roles| && f.roles[k] != JStr(value) ==> f.roles[k] in r.roles
    ensures !checked ==> forall k :: 0 <= k < |r.roles| ==> r.roles[k] in f.roles
  {
    f.(roles := if checked then f.roles + [JStr(value)] else Without(f.roles, JStr(value)))
  }

  /** Unchecking after checking leaves no occurrence, even when the value was already listed. */
  lemma CheckThenUncheck(f: EditForm, value: string)
    ensures JStr(value) !in RoleToggled(RoleToggled(f, value, true), value, false).roles
    ensures RoleToggled(RoleToggled(f, value, true), value, false) == RoleToggled(f, value, false)
  {
    WithoutAppend(f.roles, [JStr(value)], JStr(value));
    assert Without([JStr(value)], JStr(value)) == [];
  }

  // ---- validation of an edit ---------------------------------------------

  predicate NoSpaceOrAt(s: string) {
    forall k :: 0 <= k < |s| ==> !IsJsSpace(s[k]) && s[k] != '@'
  }

  /** [^\s@]+\.[^\s@]+ : no white space or '@', and a '.' with text on both sides. */
  predicate DomainPattern(d: string) {
    NoSpaceOrAt(d) && exists j :: 0 < j < |d| - 1 && d[j] == '.'
  }

  /** The pattern ^[^\s@]+@[^\s@]+\.[^\s@]+$ . */
  predicate EmailPattern(s: string) {
    exists i :: 0 < i < |s| && s[i] == '@' && NoSpaceOrAt(s[..i]) && DomainPattern(s[i + 1..])
  }

  lemma EmailPatternExamples()
    ensures EmailPattern("a@b.c")
    ensures !EmailPattern("a@b")
    ensures !EmailPattern("a b@c.d")
  {
    var s := "a@b.c";
    assert s[2..][1] == '.';
    assert s[..1] == "a";
    var t := "a@b";
    forall i | 0 < i < |t| && t[i] == '@' ensures !DomainPattern(t[i + 1..]) {
      assert t[i + 1..] == "b";
    }
    var u := "a b@c.d";
    forall i | 0 < i < |u| && u[i] == '@' ensures !NoSpaceOrAt(u[..i]) {
      assert i == 3;
      assert u[..i][1] == ' ';
    }
  }

  /** An email the pattern accepts has the shape the back end's @Email check needs: one '@' inside the text. */
  lemma EmailPatternHasShape(s: string)
    requires EmailPattern(s)
    ensures exists i :: 0 < i < |s| - 1 && s[i] == '@' && '@' !in s[..i] && '@' !in s[i + 1..]
  {
    var i :| 0 < i < |s| && s[i] == '@' && NoSpaceOrAt(s[..i]) && DomainPattern(s[i + 1..]);
    var d := s[i + 1..];
    var j :| 0 < j < |d| - 1 && d[j] == '.';
    assert '@' !in s[..i] by {
      forall k | 0 <= k < i ensures s[..i][k] != '@' { }
    }
    assert '@' !in d by {
      forall k | 0 <= k < |d| ensures d[k] != '@' { }
    }
  }

  /** The checks of handleUpdateUser. */
  datatype EditCheck =
    | UsernameRequired | UsernameTooLong | EmailRequired | EmailTooLong | EmailInvalid
    | FullNameRequired | FullNameTooShort | FullNameTooLong | DateRequired | NoRole | DateInFuture

  /** The message each check shows. */
  function EditMessage(c: EditCheck): string {
    match c
    case UsernameRequired => "Username is required."
    case UsernameTooLong => "Username must be 20 characters or less."
    case EmailRequired => "Email is required."
    case EmailTooLong => "Email must be 50 characters or less."
    case EmailInvalid => "Please enter a valid email address."
    case FullNameRequired => "Full name is required."
    case FullNameTooShort => "Full name must be at least 2 characters."
    case FullNameTooLong => "Full name must be 100 characters or less."
    case DateRequired => "Enrollment date is required."
    case NoRole => "At least one role must be selected."
    case DateInFuture => "Enrollment date cannot be in the future."
  }

  /** handleUpdateUser's checks in the source's order: the first that fails, or None. */
  function EditError(f: EditForm, today: int): (r: Option<EditCheck>)
    ensures r.None? <==> EditAccepted(f, today)
  {
    var username := Trim(JavaScript, f.username);
    var email := Trim(JavaScript, f.email);
    var fullName := Trim(JavaScript, f.fullName);
    if username == [] then Some(UsernameRequired)
    else if |username| > 20 then Some(UsernameTooLong)
    else if email == [] then Some(EmailRequired)
    else if |email| > 50 then Some(EmailTooLong)
    else if !EmailPattern(email) then Some(EmailInvalid)
    else if fullName == [] then Some(FullNameRequired)
    else if |fullName| < 2 then Some(FullNameTooShort)
    else if |fullName| > 100 then Some(FullNameTooLong)
    else if f.enrollmentDate == [] then Some(DateRequired)
    else if |f.roles| == 0 then Some(NoRole)
    else if IsAfter(f.enrollmentDate, today) then Some(DateInFuture)
    else None
  }

  /** The conditions a form must meet, as a conjunction. */
  predicate EditAccepted(f: EditForm, today: int) {
    var username := Trim(JavaScript, f.username);
    var email := Trim(JavaScript, f.email);
    var fullName := Trim(JavaScript, f.fullName);
    && 1 <= |username| <= 20
    && 1 <= |email| <= 50 && EmailPattern(email)
    && 2 <= |fullName| <= 100
    && f.enrollmentDate != []
    && |f.roles| >= 1
    && !IsAfter(f.enrollmentDate, today)
  }

  /** The request body of the PUT. */
  datatype EditRequest = EditRequest(
    id: Option<Json>, username: string, email: string, fullName: string,
    enrollmentDate: string, roles: seq<Json>, createdAt: Option<Json>)

  function RequestFor(f: EditForm, editing: Json): (r: EditRequest)
    ensures IsTrimmed(JavaScript, r.username) && IsTrimmed(JavaScript, r.email) && IsTrimmed(JavaScript, r.fullName)
    ensures r.enrollmentDate == f.enrollmentDate && r.roles == f.roles
  {
    TrimIsTrimmed(JavaScript, f.username);
    TrimIsTrimmed(JavaScript, f.email);
    TrimIsTrimmed(JavaScript, f.fullName);
    EditRequest(Field(Some(editing), "id"), Trim(JavaScript, f.username), Trim(JavaScript, f.email),
                Trim(JavaScript, f.fullName), f.enrollmentDate, f.roles, Field(Some(editing), "createdAt"))
  }

  /**
   * A request built from an accepted form meets the User entity's bounds:
   * username at most 20, email at most 50 and of email shape, full name 2 to
   * 100 characters, none of them empty, and a well-formed date not after today.
   */
  lemma AcceptedEditMeetsUserBounds(f: EditForm, editing: Json, today: int)
    requires EditError(f, today).None?
    ensures var q := RequestFor(f, editing);
      && 1 <= |q.username| <= 20 && IsTrimmed(JavaScript, q.username)
      && 1 <= |q.email| <= 50 && IsTrimmed(JavaScript, q.email)
      && (exists i :: 0 < i < |q.email| - 1 && q.email[i] == '@' && '@' !in q.email[..i] && '@' !in q.email[i + 1..])
      && 2 <= |q.fullName| <= 100 && IsTrimmed(JavaScript, q.fullName)
      && |q.roles| >= 1
      && (DayKey(q.enrollmentDate).Some? ==> DayKey(q.enrollmentDate).value <= today)
  {
    TrimIsTrimmed(JavaScript, f.username);
    TrimIsTrimmed(JavaScript, f.email);
    TrimIsTrimmed(JavaScript, f.fullName);
    EmailPatternHasShape(Trim(JavaScript, f.email));
  }

  // ---- the message for a failed update -----------------------------------

  /** `${error.field}: ${error.message}` for one validationErrors entry; None when the entry is null. */
  function EntryText(e: Json): Option<string> {
    if e.JNull? then None
    else Some(ToJsStringOpt(Field(Some(e), "field")) + ": " + ToJsStringOpt(Field(Some(e), "message")))
  }

  function EntryTexts(items: seq<Json>): (r: Option<seq<string>>)
    ensures r.Some? <==> forall k :: 0 <= k < |items| ==> !items[k].JNull?
    ensures r.Some? ==> |r.value| == |items| && forall k :: 0 <= k < |items| ==> r.value[k] == EntryText(items[k]).value
  {
    if items == [] then Some([])
    else
      var rest := EntryTexts(items[1..]);
      assert forall k :: 1 <= k < |items| ==> items[k] == items[1..][k - 1];
      if items[0].JNull? || rest.None? then None else Some([EntryText(items[0]).value] + rest.value)
  }

  /** Object.values(x) for the errors entry; an object's key order is given, since a map keeps none. */
  function ValuesOf(x: Json, keyOrder: seq<string>): seq<string> {
    match x
    case JArr(items) => seq(|items|, k requires 0 <= k < |items| => if items[k].JNull? then "" else ToJsString(items[k]))
    case JStr(s) => seq(|s|, k requires 0 <= k < |s| => [s[k]])
    case JObj(fields) =>
      var keys := Filter(keyOrder, k => k in fields);
      seq(|keys|, k requires 0 <= k < |keys| => if fields[keys[k]].JNull? then "" else ToJsString(fields[keys[k]]))
    case _ => []
  }

  /** `x.length > 0` for the validationErrors entry. */
  predicate NonEmptyList(x: Json) {
    (x.JArr? && |x.items| > 0) || (x.JStr? && |x.s| > 0)
  }

  /**
   * The text for a 400 response: validationErrors, then message, then a
   * string body, then errors, then the generic text. None is a TypeError
   * while composing it (a non-array list, or a null entry).
   */
  function Message400(data: Json, keyOrder: seq<string>): (r: Option<string>)
    ensures var v := Field(Some(data), "validationErrors");
      TruthyOpt(v) && NonEmptyList(v.value) && v.value.JArr? && EntryTexts(v.value.items).Some? ==>
        r == Some("Validation Error: " + Join(EntryTexts(v.value.items).value, ", "))
    ensures (!(TruthyOpt(Field(Some(data), "validationErrors")) && NonEmptyList(Field(Some(data), "validationErrors").value))
             && TruthyOpt(Field(Some(data), "message"))) ==>
        r == Some("Validation Error: " + ToJsString(Field(Some(data), "message").value))
    ensures data.JStr? ==> r == Some("Error: " + data.s)
  {
    var v := Field(Some(data), "validationErrors");
    if TruthyOpt(v) && NonEmptyList(v.value) then
      if v.value.JArr? then
        var texts := EntryTexts(v.value.items);
        if texts.None? then None else Some("Validation Error: " + Join(texts.value, ", "))
      else None
    else if TruthyOpt(Field(Some(data), "message")) then
      Some("Validation Error: " + ToJsString(Field(Some(data), "message").value))
    else if data.JStr? then Some("Error: " + data.s)
    else if TruthyOpt(Field(Some(data), "errors")) then
      Some("Validation Error: " + Join(ValuesOf(Field(Some(data), "errors").value, keyOrder), ", "))
    else Some("Invalid data provided. Please check all fields meet the requirements.")
  }

  /** The error banner after a failed PUT. */
  function UpdateError<T>(h: HttpOutcome<T>, keyOrder: seq<string>): (r: Option<string>)
    ensures Status(h) == Some(400) ==> r == Message400(h.body, keyOrder)
    ensures Status(h) == Some(403) ==> r == Some("You don't have permission to update this user.")
    ensures Status(h) == Some(404) ==> r == Some("User not found.")
    ensures Status(h) !in {Some(400), Some(403), Some(404)} ==> r == Some("Failed to update user.")
  {
    if Status(h) == Some(400) then Message400(h.body, keyOrder)
    else if Status(h) == Some(403) then Some("You don't have permission to update this user.")
    else if Status(h) == Some(404) then Some("User not found.")
    else Some("Failed to update user.")
  }

  /** A list of plain strings, as the exception handler sends validationErrors, shows as "undefined: undefined" per entry. */
  lemma StringEntriesShowUndefined(items: seq<string>, keyOrder: seq<string>, rest: map<string, Json>)
    requires |items| > 0
    ensures var data := JObj(rest["validationErrors" := JArr(seq(|items|, k requires 0 <= k < |items| => JStr(items[k])))]);
      Message400(data, keyOrder) ==
        Some("Validation Error: " + Join(seq(|items|, k requires 0 <= k < |items| => "undefined: undefined"), ", "))
  {
    var list := seq(|items|, k requires 0 <= k < |items| => JStr(items[k]));
    var data := JObj(rest["validationErrors" := JArr(list)]);
    assert Field(Some(data), "validationErrors") == Some(JArr(list));
    assert NonEmptyList(JArr(list)) && Truthy(JArr(list));
    StringEntriesTexts(list);
  }

  /** A string entry has neither a field nor a message: both print as undefined. */
  lemma StringEntryText(e: Json)
    requires e.JStr?
    ensures EntryText(e) == Some("undefined: undefined")
  {
    assert Field(Some(e), "field").None? && Field(Some(e), "message").None?;
    assert "undefined" + ": " + "undefined" == "undefined: undefined";
  }

  lemma StringEntriesTexts(list: seq<Json>)
    requires forall k :: 0 <= k < |list| ==> list[k].JStr?
    ensures EntryTexts(list) == Some(seq(|list|, k requires 0 <= k < |list| => "undefined: undefined"))
  {
    var texts := EntryTexts(list);
    forall k | 0 <= k < |list| ensures texts.value[k] == "undefined: undefined" {
      StringEntryText(list[k]);
    }
    assert texts.value == seq(|list|, k requires 0 <= k < |list| => "undefined: undefined");
  }

  // ---- the role statistics -----------------------------------------------

  /**
   * typeof role === 'string' ? role : role?.name || role?.authority || String(role):
   * a string role, else a truthy name or authority as it is, else String(role).
   */
  function RoleString(role: Json): (r: Json)
    ensures role.JStr? ==> r == role
    ensures !role.JStr? && TruthyOpt(Field(Some(role), "name")) ==> r == Field(Some(role), "name").value
    ensures !role.JStr? && !TruthyOpt(Field(Some(role), "name")) && TruthyOpt(Field(Some(role), "authority")) ==>
      r == Field(Some(role), "authority").value
    ensures !role.JStr? && !TruthyOpt(Field(Some(role), "name")) && !TruthyOpt(Field(Some(role), "authority")) ==>
      r == JStr(ToJsString(role))
    ensures !r.JStr? ==> !role.JStr? && role.JObj?
  {
    if role.JStr? then role
    else if TruthyOpt(Field(Some(role), "name")) then Field(Some(role), "name").value
    else if TruthyOpt(Field(Some(role), "authority")) then Field(Some(role), "authority").value
    else JStr(ToJsString(role))
  }

  /** The tests of the three counts. */
  datatype RoleTest = AdminTest | ModeratorTest | RegularTest

  predicate IsAdminRole(s: string) { Contains(s, "ADMIN") }
  predicate IsModeratorRole(s: string) { Contains(s, "MODERATOR") }
  predicate IsRegularRole(s: string) { Contains(s, "USER") && !Contains(s, "ADMIN") && !Contains(s, "MODERATOR") }

  /** roleString.includes(sub): a substring test on a string, an element test on an array. */
  predicate Includes(v: Json, sub: string)
    requires v.JStr? || v.JArr?
  {
    if v.JStr? then Contains(v.s, sub) else JStr(sub) in v.items
  }

  /** A count's test on roleString; None (a TypeError) when roleString has no includes. */
  function Passes(t: RoleTest, v: Json): (r: Option<bool>)
    ensures r.None? <==> !v.JStr? && !v.JArr?
    ensures v.JStr? && t == AdminTest ==> r == Some(IsAdminRole(v.s))
    ensures v.JStr? && t == ModeratorTest ==> r == Some(IsModeratorRole(v.s))
    ensures v.JStr? && t == RegularTest ==> r == Some(IsRegularRole(v.s))
  {
    if !v.JStr? && !v.JArr? then None
    else
      match t
      case AdminTest => Some(Includes(v, "ADMIN"))
      case ModeratorTest => Some(Includes(v, "MODERATOR"))
      case RegularTest => Some(Includes(v, "USER") && !Includes(v, "ADMIN") && !Includes(v, "MODERATOR"))
  }

  /** roles.some(role => test(roleString)): it stops at the first passing role, so a later throw is not reached. */
  function AnyPasses(roles: seq<Json>, t: RoleTest): (r: Option<bool>)
    ensures (forall k :: 0 <= k < |roles| ==> Passes(t, RoleString(roles[k])).Some?) ==>
      r == Some(exists k :: 0 <= k < |roles| && Passes(t, RoleString(roles[k])) == Some(true))
    ensures r.None? ==> exists k :: 0 <= k < |roles| && Passes(t, RoleString(roles[k])).None?
  {
    if roles == [] then Some(false)
    else
      var head := Passes(t, RoleString(roles[0]));
      assert forall k :: 1 <= k < |roles| ==> roles[k] == roles[1..][k - 1];
      if head != Some(false) then head else AnyPasses(roles[1..], t)
  }

  /** u.roles?.some(...): reading roles of a null user throws, and so does some on a value that is not an array. */
  function SomeRole(u: Json, t: RoleTest): (r: Option<bool>)
    ensures u.JNull? ==> r.None?
    ensures var roles := Field(Some(u), "roles");
      !u.JNull? && (roles.None? || roles.value.JNull?) ==> r == Some(false)
    ensures var roles := Field(Some(u), "roles");
      roles.Some? && !roles.value.JNull? && !roles.value.JArr? ==> r.None?
    ensures var roles := Field(Some(u), "roles");
      roles.Some? && roles.value.JArr? ==> r == AnyPasses(roles.value.items, t)
  {
    var roles := Field(Some(u), "roles");
    if u.JNull? then None
    else if roles.None? || roles.value.JNull? then Some(false)
    else if roles.value.JArr? then AnyPasses(roles.value.items, t)
    else None
  }

  /** users.filter(u => SomeRole(u, t)).length, or None when the filter throws for some user. */
  function CountWith(users: seq<Json>, t: RoleTest): (r: Option<nat>)
    ensures r.Some? <==> forall k :: 0 <= k < |users| ==> SomeRole(users[k], t).Some?
    ensures r.Some? ==> r.value == |Filter(users, u => SomeRole(u, t) == Some(true))| && r.value <= |users|
  {
    if users == [] then Some(0)
    else
      var head := SomeRole(users[0], t);
      var rest := CountWith(users[1..], t);
      assert forall k :: 1 <= k < |users| ==> users[k] == users[1..][k - 1];
      if head.None? || rest.None? then None
      else Some((if head.value then 1 else 0) + rest.value)
  }

  /** The admin, moderator and regular counts in render order; None when one of the filters throws. */
  function Stats(users: seq<Json>): (r: Option<(nat, nat, nat)>)
    ensures r.Some? <==> CountWith(users, AdminTest).Some? && CountWith(users, ModeratorTest).Some? && CountWith(users, RegularTest).Some?
    ensures r.Some? ==>
      r.value == (CountWith(users, AdminTest).value, CountWith(users, ModeratorTest).value, CountWith(users, RegularTest).value)
    ensures r.Some? ==> r.value.0 <= |users| && r.value.1 <= |users| && r.value.2 <= |users|
  {
    match CountWith(users, AdminTest)
    case None => None
    case Some(admins) =>
      match CountWith(users, ModeratorTest)
      case None => None
      case Some(moderators) =>
        match CountWith(users, RegularTest)
        case None => None
        case Some(regular) => Some((admins, moderators, regular))
  }

  /** On well-shaped users no filter throws, so the counts are shown. */
  lemma StatsWellShaped(users: seq<Json>)
    requires forall k :: 0 <= k < |users| ==> WellShaped(users[k])
    ensures Stats(users).Some?
  {
    forall t: RoleTest, k | 0 <= k < |users| ensures SomeRole(users[k], t).Some? {
      var u := users[k];
      if "roles" in u.fields && u.fields["roles"].JArr? {
        var items := u.fields["roles"].items;
        assert forall j :: 0 <= j < |items| ==> Passes(t, RoleString(items[j])).Some?;
      }
    }
  }

  /** A role whose name is a number, a roles value that is a string, and a null user each make the counts throw. */
  lemma StatsThrows()
    ensures Stats([JObj(map["roles" := JArr([JObj(map["name" := JNum(1)])])])]).None?
    ensures Stats([JObj(map["roles" := JStr("ROLE_ADMIN")])]).None?
    ensures Stats([JNull]).None?
  {
    var u := JObj(map["roles" := JArr([JObj(map["name" := JNum(1)])])]);
    assert RoleString(JObj(map["name" := JNum(1)])) == JNum(1);
    assert SomeRole(u, AdminTest).None?;
  }

  /** A string lacking one of sub's characters does not contain sub. */
  lemma MissingChar(s: string, sub: string, k: nat)
    requires k < |sub| && sub[k] !in s
    ensures !Contains(s, sub)
  {
    ContainsChars(s, sub);
  }

  /** "ROLE_ADMIN" is counted as an admin role only. */
  lemma AdminNameIsAdmin()
    ensures IsAdminRole("ROLE_ADMIN") && !IsModeratorRole("ROLE_ADMIN") && !IsRegularRole("ROLE_ADMIN")
  {
    assert OccursAt("ROLE_ADMIN", "ADMIN", 5);
    ContainsAt("ROLE_ADMIN", "ADMIN");
    assert 'T' !in "ROLE_ADMIN" by { assert "ROLE_ADMIN" == ['R', 'O', 'L', 'E', '_', 'A', 'D', 'M', 'I', 'N']; }
    MissingChar("ROLE_ADMIN", "MODERATOR", 6);
  }

  /** "ROLE_USER" is counted as a regular role only. */
  lemma UserNameIsRegular()
    ensures !IsAdminRole("ROLE_USER") && !IsModeratorRole("ROLE_USER") && IsRegularRole("ROLE_USER")
  {
    UserNameHasUser();
    UserNameLacks('D', "ADMIN", 1);
    UserNameLacks('M', "MODERATOR", 0);
  }

  lemma UserNameHasUser()
    ensures Contains("ROLE_USER", "USER")
  {
    assert OccursAt("ROLE_USER", "USER", 5);
    ContainsAt("ROLE_USER", "USER");
  }

  /** "ROLE_USER" lacks the character at position k of sub, so it does not contain sub. */
  lemma UserNameLacks(c: char, sub: string, k: nat)
    requires (c == 'D' || c == 'M') && k < |sub| && sub[k] == c
    ensures !Contains("ROLE_USER", sub)
  {
    assert c !in "ROLE_USER" by {
      assert "ROLE_USER" == ['R', 'O', 'L', 'E', '_', 'U', 'S', 'E', 'R'];
    }
    MissingChar("ROLE_USER", sub, k);
  }

  /** A single user is counted exactly when its test passes. */
  lemma CountOne(u: Json, t: RoleTest)
    requires SomeRole(u, t).Some?
    ensures CountWith([u], t) == Some(if SomeRole(u, t).value then 1 else 0)
  {
    assert [u][1..] == [];
  }

  /** A user whose roles are one regular and one admin role counts as both; the three counts may overlap. */
  lemma {:induction false} RegularAndAdminCountedTwice(u: Json, regular: string, admin: string)
    requires Field(Some(u), "roles") == Some(JArr([JStr(regular), JStr(admin)]))
    requires IsRegularRole(regular) && !IsModeratorRole(regular)
    requires IsAdminRole(admin) && !IsModeratorRole(admin)
    ensures Stats([u]) == Some((1, 0, 1))
  {
    var items := [JStr(regular), JStr(admin)];
    assert SomeRole(u, AdminTest) == Some(true) by {
      assert RoleString(items[0]) == items[0] && RoleString(items[1]) == items[1];
      assert AnyPasses(items[1..], AdminTest) == Some(true);
    }
    assert SomeRole(u, RegularTest) == Some(true) by {
      assert RoleString(items[0]) == items[0];
    }
    assert SomeRole(u, ModeratorTest) == Some(false) by {
      assert RoleString(items[0]) == items[0] && RoleString(items[1]) == items[1];
      assert AnyPasses(items[1..], ModeratorTest) == Some(false);
    }
    CountOne(u, AdminTest);
    CountOne(u, ModeratorTest);
    CountOne(u, RegularTest);
  }

  /** The user with roles ["ROLE_USER", "ROLE_ADMIN"] appears in the admin count and in the regular count. */
  lemma UserAndAdminCountedTwice()
    ensures Stats([JObj(map["roles" := JArr([JStr("ROLE_USER"), JStr("ROLE_ADMIN")])])]) == Some((1, 0, 1))
  {
    AdminNameIsAdmin();
    UserNameIsRegular();
    RegularAndAdminCountedTwice(JObj(map["roles" := JArr([JStr("ROLE_USER"), JStr("ROLE_ADMIN")])]), "ROLE_USER", "ROLE_ADMIN");
  }

  // ---- the component state -----------------------------------------------

  /** The success banner after an update: `User ${editingUser.username} updated successfully!`. */
  function UpdatedText(editing: Option<Json>): string {
    "User " + ToJsStringOpt(Field(editing, "username")) + " updated successfully!"
  }

  const FetchForbidden: string := "You don't have permission to view users."
  const FetchNotFound: string := "User endpoint not found. Please check backend configuration."
  const FetchFailed: string := "Failed to fetch users. Please ensure the backend is running."

  /**
   * fetchUsers keeps the response only when it resolved and its debug loop,
   * which reads user.username of every user, met no null user.
   */
  predicate Listed(h: HttpOutcome<seq<Json>>) {
    h.Resolved? && forall k :: 0 <= k < |h.data| ==> !h.data[k].JNull?
  }

  /** fetchUsers' error banner for a failed request (a throw after a 2xx reply has no status). */
  function FetchError<T>(h: HttpOutcome<T>): (r: string)
    ensures r == FetchForbidden <==> Status(h) == Some(403)
    ensures r == FetchNotFound <==> Status(h) == Some(404)
  {
    if Status(h) == Some(403) then FetchForbidden
    else if Status(h) == Some(404) then FetchNotFound
    else FetchFailed
  }

  class Management {
    var users: seq<Json>
    var filteredUsers: seq<Json>
    var loading: bool
    var error: string
    var success: string
    var searchTerm: string
    var editingUser: Option<Json>
    var editForm: EditForm

    constructor ()
      ensures users == [] && filteredUsers == [] && !loading && error == "" && success == "" && searchTerm == ""
      ensures editingUser.None? && editForm == EmptyForm
    {
      users := [];
      filteredUsers := [];
      loading := false;
      error := "";
      success := "";
      searchTerm := "";
      editingUser := None;
      editForm := EmptyForm;
    }

    /** fetchUsers: both lists become the response, whatever the search term; a failure empties both. */
    method FetchUsers(outcome: HttpOutcome<seq<Json>>)
      modifies this
      ensures !loading
      ensures Listed(outcome) ==> users == outcome.data && filteredUsers == outcome.data && error == ""
      ensures !Listed(outcome) ==> users == [] && filteredUsers == [] && error == FetchError(outcome)
      ensures searchTerm == old(searchTerm) && success == old(success)
      ensures editingUser == old(editingUser) && editForm == old(editForm)
    {
      loading := true;
      if Listed(outcome) {
        users := outcome.data;
        filteredUsers := outcome.data;
        error := "";
      } else {
        error := FetchError(outcome);
        users := [];
        filteredUsers := [];
      }
      loading := false;
    }

    /** handleSearch: the term is stored first, so a throwing filter leaves the term updated and the list as it was. */
    method HandleSearch(input: string) returns (threw: bool)
      modifies this
      ensures searchTerm == Lower(input)
      ensures threw <==> SearchUsers(users, input).None?
      ensures !threw ==> filteredUsers == SearchUsers(users, input).value
      ensures threw ==> filteredUsers == old(filteredUsers)
      ensures users == old(users) && error == old(error) && success == old(success) && loading == old(loading)
      ensures editingUser == old(editingUser) && editForm == old(editForm)
    {
      var term := Lower(input);
      searchTerm := term;
      var found := SearchUsers(users, input);
      if found.None? {
        return true;
      }
      filteredUsers := found.value;
      threw := false;
    }

    /** handleEditUser: the user is selected first, so a throwing read leaves it selected over the old form. */
    method HandleEditUser(user: Json) returns (threw: bool)
      modifies this
      ensures editingUser == Some(user)
      ensures threw <==> FormFor(user).None?
      ensures !threw ==> editForm == FormFor(user).value
      ensures threw ==> editForm == old(editForm)
      ensures users == old(users) && filteredUsers == old(filteredUsers) && error == old(error) && success == old(success)
    {
      editingUser := Some(user);
      var form := FormFor(user);
      if form.None? {
        return true;
      }
      editForm := form.value;
      threw := false;
    }

    method HandleRoleChange(value: string, checked: bool)
      modifies this
      ensures editForm == RoleToggled(old(editForm), value, checked)
      ensures editingUser == old(editingUser) && users == old(users) && filteredUsers == old(filteredUsers)
    {
      editForm := RoleToggled(editForm, value, checked);
    }

    method HandleCancelEdit()
      modifies this
      ensures editingUser.None? && editForm == EmptyForm
      ensures users == old(users) && filteredUsers == old(filteredUsers) && error == old(error) && success == old(success)
    {
      editingUser := None;
      editForm := EmptyForm;
    }

    /** The PUT's handling once it is sent: the success path refetches, a failure shows its message. */
    method ReportUpdate(put: HttpOutcome<()>, refetch: HttpOutcome<seq<Json>>, keyOrder: seq<string>)
      modifies this
      ensures !loading
      ensures put.Resolved? ==>
        && success == UpdatedText(old(editingUser))
        && editingUser.None? && editForm == EmptyForm
        && (Listed(refetch) ==> users == refetch.data && filteredUsers == refetch.data && error == "")
        && (!Listed(refetch) ==> users == [] && filteredUsers == [] && error == FetchError(refetch))
      ensures !put.Resolved? ==>
        && (UpdateError(put, keyOrder).Some? ==> error == UpdateError(put, keyOrder).value)
        && (UpdateError(put, keyOrder).None? ==> error == old(error))
        && success == old(success) && editingUser == old(editingUser) && editForm == old(editForm)
        && users == old(users) && filteredUsers == old(filteredUsers)
    {
      if put.Resolved? {
        success := UpdatedText(editingUser);
        editingUser := None;
        editForm := EmptyForm;
        FetchUsers(refetch);
      } else {
        var message := UpdateError(put, keyOrder);
        if message.Some? {
          error := message.value;
        }
      }
      loading := false;
    }

    /** A failed check: only the error banner changes. */
    method RejectEdit(message: string)
      modifies this
      ensures error == message
      ensures loading == old(loading) && success == old(success) && searchTerm == old(searchTerm)
      ensures editForm == old(editForm) && editingUser == old(editingUser)
      ensures users == old(users) && filteredUsers == old(filteredUsers)
    {
      error := message;
    }

    /**
     * handleUpdateUser, with today's day key, the PUT's outcome and the
     * refetch's outcome as parameters. Returns the body sent, or None when a
     * check failed and no request was made.
     */
    method HandleUpdateUser(today: int, put: HttpOutcome<()>, refetch: HttpOutcome<seq<Json>>, keyOrder: seq<string>)
      returns (sent: Option<EditRequest>)
      requires editingUser.Some?
      modifies this
      ensures EditError(old(editForm), today).Some? ==>
        && sent.None? && error == EditMessage(EditError(old(editForm), today).value)
        && loading == old(loading) && success == old(success)
        && editForm == old(editForm) && editingUser == old(editingUser)
        && users == old(users) && filteredUsers == old(filteredUsers)
      ensures EditError(old(editForm), today).None? ==>
        sent == Some(RequestFor(old(editForm), old(editingUser).value)) && !loading
      ensures EditError(old(editForm), today).None? && put.Resolved? ==>
        && success == UpdatedText(old(editingUser))
        && editingUser.None? && editForm == EmptyForm
        && (Listed(refetch) ==> users == refetch.data && filteredUsers == refetch.data && error == "")
        && (!Listed(refetch) ==> users == [] && filteredUsers == [] && error == FetchError(refetch))
      ensures EditError(old(editForm), today).None? && !put.Resolved? ==>
        && (UpdateError(put, keyOrder).Some? ==> error == UpdateError(put, keyOrder).value)
        && (UpdateError(put, keyOrder).None? ==> error == old(error))
        && editingUser == old(editingUser) && editForm == old(editForm) && users == old(users)
    {
      var failure := EditError(editForm, today);
      if failure.Some? {
        RejectEdit(EditMessage(failure.value));
        sent := None;
      } else {
        var body := SendEdit(put, refetch, keyOrder);
        sent := Some(body);
      }
    }

    /** An accepted edit: the PUT is sent with the trimmed fields and its outcome reported. */
    method SendEdit(put: HttpOutcome<()>, refetch: HttpOutcome<seq<Json>>, keyOrder: seq<string>)
      returns (body: EditRequest)
      requires editingUser.Some?
      modifies this
      ensures body == RequestFor(old(editForm), old(editingUser).value) && !loading
      ensures put.Resolved? ==>
        && success == UpdatedText(old(editingUser))
        && editingUser.None? && editForm == EmptyForm
        && (Listed(refetch) ==> users == refetch.data && filteredUsers == refetch.data && error == "")
        && (!Listed(refetch) ==> users == [] && filteredUsers == [] && error == FetchError(refetch))
      ensures !put.Resolved? ==>
        && (UpdateError(put, keyOrder).Some? ==> error == UpdateError(put, keyOrder).value)
        && (UpdateError(put, keyOrder).None? ==> error == old(error))
        && editingUser == old(editingUser) && editForm == old(editForm) && users == old(users)
    {
      body := RequestFor(editForm, editingUser.value);
      loading := true;
      ReportUpdate(put, refetch, keyOrder);
    }
  }
}
