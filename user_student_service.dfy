/**
 * UserStudentService: users that have a full name and an enrollment date
 * are the students. Lookups, the three update paths (self-update, update
 * by id, update by id with roles), deletion, search and role-name
 * conversion. Updates run in a transaction, so an exception leaves the
 * table unchanged. The password encoder is a function parameter.
 */
module UserStudentService {
  import opened Wrappers
  import opened Text
  import opened Ids
  import opened Lists
  import opened Roles
  import opened Exceptions
  import opened UserModel

  /** UpdateUserRequest: every field may be absent (null). */
  datatype UpdateUserRequest = UpdateUserRequest(
    id: Option<int>,
    username: Option<string>,
    email: Option<string>,
    fullName: Option<string>,
    password: Option<string>,
    enrollmentDate: Option<int>,
    roles: Option<seq<string>>,
    createdAt: Option<string>)

  /** The result of an operation together with the users table after it. */
  datatype Outcome<T> = Outcome(result: Result<T, Exception>, users: Users)

  const UsernameEmpty: string := "Username cannot be empty"
  const EmailEmpty: string := "Email cannot be empty"
  const FullNameEmpty: string := "Full name cannot be empty"
  const PasswordShort: string := "Password must be at least 6 characters long"

  function StudentIdMessage(id: int): string {
    "Student not found with id: " + IntToString(id)
  }

  /** A user is a student once both profile fields are set. */
  predicate Complete(u: UserRow) {
    u.fullName.Some? && u.enrollmentDate.Some?
  }

  /** findByUsername: the stored user with that username. */
  function FindByUsername(users: Users, username: string): (r: Option<int>)
    ensures r.Some? <==> exists id :: id in users && users[id].username == username
    ensures r.Some? ==> r.value in users && users[r.value].username == username
    ensures r.Some? && UniqueUsernames(users) ==> forall id :: id in users && users[id].username == username ==> id == r.value
  {
    var ids := set id | id in users && users[id].username == username;
    assert forall id :: id in users && users[id].username == username ==> id in ids;
    if ids == {} then None else Some(Least(ids))
  }

  /** The id belongs to a stored complete profile. */
  predicate Student(users: Users, id: int) {
    id in users && Complete(users[id])
  }

  /** getAllStudents: the complete profiles, newest id first. */
  function GetAllStudents(users: Users): (r: seq<int>)
    ensures forall id :: id in r <==> id in users && Complete(users[id])
    ensures Decreasing(r)
  {
    var all := Descending(users.Keys);
    var keep := id => Student(users, id);
    FilterDecreasing(all, keep);
    FilterMembers(all, keep);
    Filter(all, keep)
  }

  /** getStudentById: a missing user and an incomplete profile fail alike. */
  function GetStudentById(users: Users, id: int): (r: Result<UserRow, Exception>)
    ensures r.Ok? <==> id in users && Complete(users[id])
    ensures r.Ok? ==> r.value == users[id]
    ensures r.Err? ==> r.error == StudentNotFound(StudentIdMessage(id))
  {
    if id in users && Complete(users[id]) then Ok(users[id]) else Err(StudentNotFound(StudentIdMessage(id)))
  }

  /** getCurrentStudent: the caller's own complete profile. */
  function GetCurrentStudent(users: Users, username: string): (r: Result<UserRow, Exception>)
    ensures r.Ok? <==> FindByUsername(users, username).Some? && Complete(users[FindByUsername(users, username).value])
    ensures r.Ok? ==> r.value.username == username && r.value == users[FindByUsername(users, username).value]
    ensures r.Err? ==> r.error == StudentNotFound("Student profile not found for user: " + username)
  {
    var found := FindByUsername(users, username);
    if found.Some? && Complete(users[found.value]) then Ok(users[found.value])
    else Err(StudentNotFound("Student profile not found for user: " + username))
  }

  /** The search filter: lower-cased full name, email or username contains the lower-cased keyword. */
  predicate SearchMatch(u: UserRow, keyword: string)
    requires Complete(u)
  {
    Contains(Lower(u.fullName.value), Lower(keyword)) || Contains(Lower(u.email), Lower(keyword))
    || Contains(Lower(u.username), Lower(keyword))
  }

  /** The id belongs to a stored complete profile that matches the keyword. */
  predicate Found(users: Users, keyword: string, id: int) {
    id in users && Complete(users[id]) && SearchMatch(users[id], keyword)
  }

  /** searchStudents: the complete profiles that match, in table order. */
  function SearchStudents(users: Users, keyword: string): (r: seq<int>)
    ensures forall id :: id in r <==> id in users && Complete(users[id]) && SearchMatch(users[id], keyword)
    ensures Increasing(r)
  {
    var all := Ascending(users.Keys);
    var keep := id => Found(users, keyword, id);
    FilterIncreasing(all, keep);
    FilterMembers(all, keep);
    Filter(all, keep)
  }

  predicate ProvidedBlank(o: Option<string>) {
    o.Some? && IsBlank(Java, o.value)
  }

  predicate ProvidedNonBlank(o: Option<string>) {
    o.Some? && !IsBlank(Java, o.value)
  }

  /** The stored value after an update: a provided value trimmed, else the current one. */
  function Keep(o: Option<string>, current: string): string {
    if ProvidedNonBlank(o) then Trim(Java, o.value) else current
  }

  /** The shared validation and field merge of the three update paths. */
  function Merge(row: UserRow, req: UpdateUserRequest, encode: string -> string): (r: Result<UserRow, Exception>)
    ensures r.Err? <==>
      ProvidedBlank(req.username) || ProvidedBlank(req.email) || ProvidedBlank(req.fullName)
      || (ProvidedNonBlank(req.password) && |Trim(Java, req.password.value)| < 6)
    ensures r.Err? ==> r.error.IllegalArgument?
    ensures r.Ok? ==>
      && r.value.id == row.id
      && r.value.username == (if req.username.Some? then Trim(Java, req.username.value) else row.username)
      && r.value.email == (if req.email.Some? then Trim(Java, req.email.value) else row.email)
      && r.value.fullName == (if req.fullName.Some? then Some(Trim(Java, req.fullName.value)) else row.fullName)
      && r.value.enrollmentDate == (if req.enrollmentDate.Some? then req.enrollmentDate else row.enrollmentDate)
      && r.value.password == (if ProvidedNonBlank(req.password) then encode(Trim(Java, req.password.value)) else row.password)
      && r.value.roles == row.roles && r.value.isActive == row.isActive
      && r.value.createdAt == row.createdAt && r.value.updatedAt == row.updatedAt && r.value.lastLogin == row.lastLogin
  {
    if ProvidedBlank(req.username) then Err(IllegalArgument(UsernameEmpty))
    else if ProvidedBlank(req.email) then Err(IllegalArgument(EmailEmpty))
    else if ProvidedBlank(req.fullName) then Err(IllegalArgument(FullNameEmpty))
    else if ProvidedNonBlank(req.password) && |Trim(Java, req.password.value)| < 6 then Err(IllegalArgument(PasswordShort))
    else
      Ok(row.(
        username := Keep(req.username, row.username),
        email := Keep(req.email, row.email),
        fullName := if ProvidedNonBlank(req.fullName) then Some(Trim(Java, req.fullName.value)) else row.fullName,
        enrollmentDate := if req.enrollmentDate.Some? then req.enrollmentDate else row.enrollmentDate,
        password := if ProvidedNonBlank(req.password) then encode(Trim(Java, req.password.value)) else row.password))
  }

  /** The checks report the first failure, in the order username, email, full name, password. */
  lemma MergeErrorOrder(row: UserRow, req: UpdateUserRequest, encode: string -> string)
    ensures ProvidedBlank(req.username) ==> Merge(row, req, encode) == Err(IllegalArgument(UsernameEmpty))
    ensures !ProvidedBlank(req.username) && ProvidedBlank(req.email) ==> Merge(row, req, encode) == Err(IllegalArgument(EmailEmpty))
    ensures !ProvidedBlank(req.username) && !ProvidedBlank(req.email) && ProvidedBlank(req.fullName) ==>
      Merge(row, req, encode) == Err(IllegalArgument(FullNameEmpty))
    ensures (!ProvidedBlank(req.username) && !ProvidedBlank(req.email) && !ProvidedBlank(req.fullName) &&
      ProvidedNonBlank(req.password) && |Trim(Java, req.password.value)| < 6) ==>
      Merge(row, req, encode) == Err(IllegalArgument(PasswordShort))
  {
  }

  /** A blank password counts as absent: it neither fails nor changes the stored hash. */
  lemma BlankPasswordIgnored(row: UserRow, req: UpdateUserRequest, encode: string -> string)
    requires ProvidedBlank(req.password)
    ensures Merge(row, req, encode) == Merge(row, req.(password := None), encode)
  {
  }

  /** The roles that parse reads off the names, kept when they are available; the last name is added last. */
  function Collect(names: seq<string>, parse: string -> Option<ERole>, available: set<ERole>): set<ERole>
    decreases |names|
  {
    if names == [] then {}
    else
      var last := parse(names[|names| - 1]);
      Collect(names[..|names| - 1], parse, available) + (if last.Some? && last.value in available then {last.value} else {})
  }

  /** A role is collected exactly when it is available and some name parses to it. */
  lemma {:induction false} CollectMembers(names: seq<string>, parse: string -> Option<ERole>, available: set<ERole>)
    ensures forall e :: e in Collect(names, parse, available) <==>
      e in available && exists k :: 0 <= k < |names| && parse(names[k]) == Some(e)
    decreases |names|
  {
    if names != [] {
      var init := names[..|names| - 1];
      CollectMembers(init, parse, available);
      assert forall k :: 0 <= k < |init| ==> init[k] == names[k];
      forall e | e in available && (exists k :: 0 <= k < |names| && parse(names[k]) == Some(e))
        ensures e in Collect(names, parse, available)
      {
        var k :| 0 <= k < |names| && parse(names[k]) == Some(e);
        if k < |init| {
          assert parse(init[k]) == Some(e);
        }
      }
    }
  }

  /** Two names that parse alike, put last, give the same roles. */
  lemma LastNameAlike(names: seq<string>, x: string, y: string, parse: string -> Option<ERole>, available: set<ERole>)
    requires parse(x) == parse(y)
    ensures Collect(names + [x], parse, available) == Collect(names + [y], parse, available)
  {
    assert (names + [x])[..|names|] == names;
    assert (names + [y])[..|names|] == names;
  }

  /** The role set a list of role names converts to: each name prefixed, looked up, and kept if its role row exists. */
  function ConvertedRoles(names: seq<string>, available: set<ERole>): (r: set<ERole>)
    ensures forall e :: e in r <==> e in available && exists k :: 0 <= k < |names| && Parse(names[k]) == Some(e)
  {
    CollectMembers(names, Parse, available);
    Collect(names, Parse, available)
  }

  /** convertStringRolesToRoles: the loop over the names, adding each role found. */
  method ConvertStringRolesToRoles(names: seq<string>, available: set<ERole>) returns (roles: set<ERole>)
    ensures roles == ConvertedRoles(names, available)
  {
    roles := {};
    var i := 0;
    while i < |names|
      invariant 0 <= i <= |names|
      invariant roles == Collect(names[..i], Parse, available)
    {
      var role := Parse(names[i]);
      if role.Some? && role.value in available {
        roles := roles + {role.value};
      }
      assert names[..i + 1][..i] == names[..i];
      i := i + 1;
    }
    assert names[..i] == names;
  }

  /** "X" and "ROLE_X" convert to the same roles. */
  lemma ConvertBareOrPrefixed(names: seq<string>, x: string, available: set<ERole>)
    requires !StartsWith(x, "ROLE_")
    ensures ConvertedRoles(names + [x], available) == ConvertedRoles(names + ["ROLE_" + x], available)
  {
    BareAndPrefixedAgree(x);
    LastNameAlike(names, x, "ROLE_" + x, Parse, available);
  }

  /** An unknown role name is skipped without affecting the others. */
  lemma ConvertSkipsUnknown(names: seq<string>, x: string, available: set<ERole>)
    requires Parse(x).None?
    ensures ConvertedRoles(names + [x], available) == ConvertedRoles(names, available)
  {
    var a := names + [x];
    assert a[..|names|] == names;
  }

  /** Repeating a name adds nothing: the result is a set. */
  lemma ConvertIgnoresRepeats(names: seq<string>, k: nat, available: set<ERole>)
    requires k < |names|
    ensures ConvertedRoles(names + [names[k]], available) == ConvertedRoles(names, available)
  {
    var a := names + [names[k]];
    assert a[..|names|] == names;
    CollectMembers(names, Parse, available);
  }

  /** The roles after updateStudentWithRoles: null keeps them, an empty list clears them, a list replaces them. */
  function RolesApplied(row: UserRow, names: Option<seq<string>>, available: set<ERole>): (r: UserRow)
    ensures r == row.(roles := r.roles)
    ensures names.None? ==> r.roles == row.roles
    ensures names == Some([]) ==> r.roles == {}
    ensures names.Some? ==> r.roles == ConvertedRoles(names.value, available)
  {
    if names.None? then row
    else if names.value == [] then row.(roles := {})
    else row.(roles := ConvertedRoles(names.value, available))
  }

  /** The database column whose unique constraint a save would violate, username first. */
  function Clash(users: Users, row: UserRow): (r: Option<string>)
    ensures r == Some("username") <==> exists j :: j in users && j != row.id && users[j].username == row.username
    ensures r.None? <==> forall j :: j in users && j != row.id ==> users[j].username != row.username && users[j].email != row.email
  {
    if exists j :: j in users && j != row.id && users[j].username == row.username then Some("username")
    else if exists j :: j in users && j != row.id && users[j].email == row.email then Some("email")
    else None
  }

  /** save: the row replaces the one under its id, unless a unique constraint fails. */
  function SaveUser(users: Users, row: UserRow): (r: Result<Users, Exception>)
    ensures r.Ok? <==> Clash(users, row).None?
    ensures r.Ok? ==> r.value == users[row.id := row]
    ensures r.Err? ==> r.error == DataIntegrityViolation(Clash(users, row).value)
    ensures r.Ok? && WellFormed(users) ==> WellFormed(r.value)
  {
    var c := Clash(users, row);
    if c.Some? then Err(DataIntegrityViolation(c.value)) else Ok(users[row.id := row])
  }

  /** Save the merged row, or fail with the merge error; the table is unchanged on failure. */
  function Commit(users: Users, merged: Result<UserRow, Exception>): (o: Outcome<UserRow>)
    ensures o.result.Err? ==> o.users == users
    ensures o.result.Ok? ==> merged.Ok? && o.result.value == merged.value && o.users == users[merged.value.id := merged.value]
    ensures WellFormed(users) ==> WellFormed(o.users)
  {
    if merged.Err? then Outcome(Err(merged.error), users)
    else
      var saved := SaveUser(users, merged.value);
      if saved.Err? then Outcome(Err(saved.error), users) else Outcome(Ok(merged.value), saved.value)
  }

  /** updateStudentProfile: the caller's own account, found by username. */
  function UpdateProfile(users: Users, username: string, req: UpdateUserRequest, encode: string -> string): (o: Outcome<UserRow>)
    ensures FindByUsername(users, username).None? ==> o == Outcome(Err(StudentNotFound("User not found: " + username)), users)
    ensures FindByUsername(users, username).Some? ==>
      o == Commit(users, Merge(users[FindByUsername(users, username).value], req, encode))
  {
    var found := FindByUsername(users, username);
    if found.None? then Outcome(Err(StudentNotFound("User not found: " + username)), users)
    else Commit(users, Merge(users[found.value], req, encode))
  }

  /** updateStudent: any account, found by id. */
  function UpdateById(users: Users, id: int, req: UpdateUserRequest, encode: string -> string): (o: Outcome<UserRow>)
    ensures id !in users ==> o == Outcome(Err(StudentNotFound(StudentIdMessage(id))), users)
    ensures id in users ==> o == Commit(users, Merge(users[id], req, encode))
  {
    if id !in users then Outcome(Err(StudentNotFound(StudentIdMessage(id))), users)
    else Commit(users, Merge(users[id], req, encode))
  }

  /** updateStudentWithRoles: updateStudent followed by the role replacement. */
  function UpdateWithRoles(users: Users, id: int, req: UpdateUserRequest, names: Option<seq<string>>,
                           available: set<ERole>, encode: string -> string): (o: Outcome<UserRow>)
    ensures id !in users ==> o == Outcome(Err(StudentNotFound(StudentIdMessage(id))), users)
    ensures id in users ==> o == Commit(users, WithRoles(Merge(users[id], req, encode), names, available))
  {
    if id !in users then Outcome(Err(StudentNotFound(StudentIdMessage(id))), users)
    else Commit(users, WithRoles(Merge(users[id], req, encode), names, available))
  }

  /** The role replacement after a successful merge: an error passes through, a merged row changes only its roles. */
  function WithRoles(merged: Result<UserRow, Exception>, names: Option<seq<string>>, available: set<ERole>): (r: Result<UserRow, Exception>)
    ensures r.Err? <==> merged.Err?
    ensures merged.Err? ==> r == merged
    ensures r.Ok? ==> r.value == merged.value.(roles := r.value.roles)
    ensures r.Ok? && names.None? ==> r.value.roles == merged.value.roles
  {
    if merged.Err? then merged else Ok(RolesApplied(merged.value, names, available))
  }

  /** deleteStudent. */
  function DeleteById(users: Users, id: int): (o: Outcome<()>)
    ensures o.result.Err? <==> id !in users
    ensures o.result.Err? ==> o.result.error == StudentNotFound(StudentIdMessage(id)) && o.users == users
    ensures o.result.Ok? ==> o.users == users - {id}
    ensures WellFormed(users) ==> WellFormed(o.users)
  {
    if id !in users then Outcome(Err(StudentNotFound(StudentIdMessage(id))), users)
    else Outcome(Ok(()), users - {id})
  }

  /** A blank username, email or full name fails the update by id and leaves the table unchanged. */
  lemma BlankFieldRejected(users: Users, id: int, req: UpdateUserRequest, encode: string -> string)
    requires id in users
    requires ProvidedBlank(req.username) || ProvidedBlank(req.email) || ProvidedBlank(req.fullName)
    ensures UpdateById(users, id, req, encode).result.Err?
    ensures UpdateById(users, id, req, encode).result.error.IllegalArgument?
    ensures UpdateById(users, id, req, encode).users == users
  {
  }

  /** A successful update rewrites only its own row; the id and every other row stay as they were. */
  lemma UpdateTouchesOnlyItsRow(users: Users, id: int, req: UpdateUserRequest, encode: string -> string)
    requires KeyedById(users)
    ensures var o := UpdateById(users, id, req, encode);
      o.users.Keys == users.Keys && forall j :: j in users && j != id ==> o.users[j] == users[j]
    ensures var o := UpdateById(users, id, req, encode);
      o.result.Ok? ==> o.result.value.id == id && o.users[id] == o.result.value
  {
  }

  /** A short non-blank password fails the update and nothing is saved. */
  lemma ShortPasswordRejected(users: Users, id: int, req: UpdateUserRequest, encode: string -> string)
    requires id in users && !ProvidedBlank(req.username) && !ProvidedBlank(req.email) && !ProvidedBlank(req.fullName)
    requires ProvidedNonBlank(req.password) && |Trim(Java, req.password.value)| < 6
    ensures UpdateById(users, id, req, encode) == Outcome(Err(IllegalArgument(PasswordShort)), users)
  {
  }

  /** updateStudent never changes the role set; only updateStudentWithRoles does. */
  lemma UpdateKeepsRoles(users: Users, id: int, req: UpdateUserRequest, encode: string -> string)
    requires KeyedById(users)
    ensures var o := UpdateById(users, id, req, encode);
      o.result.Ok? ==> o.users[id].roles == users[id].roles
  {
  }

  /**
   * The update paths applied to an entity: the stored user is loaded, its
   * fields set one by one, and the password checked last, as the source
   * does it.
   */
  method ApplyRequest(row: UserRow, req: UpdateUserRequest, encode: string -> string) returns (r: Result<UserRow, Exception>)
    ensures r == Merge(row, req, encode)
  {
    if ProvidedBlank(req.username) {
      return Err(IllegalArgument(UsernameEmpty));
    }
    if ProvidedBlank(req.email) {
      return Err(IllegalArgument(EmailEmpty));
    }
    if ProvidedBlank(req.fullName) {
      return Err(IllegalArgument(FullNameEmpty));
    }
    var user := new User.Load(row);
    if ProvidedNonBlank(req.username) {
      user.SetUsername(Trim(Java, req.username.value));
    }
    if ProvidedNonBlank(req.email) {
      user.SetEmail(Trim(Java, req.email.value));
    }
    if ProvidedNonBlank(req.fullName) {
      user.SetFullName(Trim(Java, req.fullName.value));
    }
    if req.enrollmentDate.Some? {
      user.SetEnrollmentDate(req.enrollmentDate.value);
    }
    if ProvidedNonBlank(req.password) {
      var p := Trim(Java, req.password.value);
      if |p| < 6 {
        return Err(IllegalArgument(PasswordShort));
      }
      user.SetPassword(encode(p));
    }
    r := Ok(user.Row());
  }

  /** The service over the users table; `available` is the set of roles present in the role table. */
  class Service {
    var users: Users
    const available: set<ERole>
    const encode: string -> string

    constructor (users: Users, available: set<ERole>, encode: string -> string)
      ensures this.users == users && this.available == available && this.encode == encode
    {
      this.users := users;
      this.available := available;
      this.encode := encode;
    }

    method UpdateStudentProfile(username: string, req: UpdateUserRequest) returns (r: Result<UserRow, Exception>)
      modifies this
      ensures Outcome(r, users) == UpdateProfile(old(users), username, req, encode)
    {
      var found := FindByUsername(users, username);
      if found.None? {
        return Err(StudentNotFound("User not found: " + username));
      }
      var merged := ApplyRequest(users[found.value], req, encode);
      r := Save(merged);
    }

    method UpdateStudent(id: int, req: UpdateUserRequest) returns (r: Result<UserRow, Exception>)
      modifies this
      ensures Outcome(r, users) == UpdateById(old(users), id, req, encode)
    {
      if id !in users {
        return Err(StudentNotFound(StudentIdMessage(id)));
      }
      var merged := ApplyRequest(users[id], req, encode);
      r := Save(merged);
    }

    method UpdateStudentWithRoles(id: int, req: UpdateUserRequest, names: Option<seq<string>>) returns (r: Result<UserRow, Exception>)
      modifies this
      ensures Outcome(r, users) == UpdateWithRoles(old(users), id, req, names, available, encode)
    {
      if id !in users {
        return Err(StudentNotFound(StudentIdMessage(id)));
      }
      var merged := ApplyRequest(users[id], req, encode);
      if merged.Ok? && names.Some? {
        if names.value == [] {
          merged := Ok(merged.value.(roles := {}));
        } else {
          var roles := ConvertStringRolesToRoles(names.value, available);
          merged := Ok(merged.value.(roles := roles));
        }
      }
      r := Save(merged);
    }

    method DeleteStudent(id: int) returns (r: Result<(), Exception>)
      modifies this
      ensures Outcome(r, users) == DeleteById(old(users), id)
    {
      if id !in users {
        return Err(StudentNotFound(StudentIdMessage(id)));
      }
      users := users - {id};
      r := Ok(());
    }

    /** userRepository.save at the end of an update, or the exception thrown before it. */
    method Save(merged: Result<UserRow, Exception>) returns (r: Result<UserRow, Exception>)
      modifies this
      ensures Outcome(r, users) == Commit(old(users), merged)
    {
      if merged.Err? {
        return Err(merged.error);
      }
      var saved := SaveUser(users, merged.value);
      if saved.Err? {
        return Err(saved.error);
      }
      users := saved.value;
      r := Ok(merged.value);
    }
  }
}
