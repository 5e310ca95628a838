/**
 * UserStudentController: the /api/students endpoints over the users table.
 * Each handler is a decision over the caller's authorities and the path id,
 * delegating to UserStudentService; thrown exceptions go to the exception
 * handler. A refused @PreAuthorize check raises an access-denied exception,
 * which the handler's catch-all turns into a 500 response.
 */
module UserStudentController {
  import opened Wrappers
  import opened Text
  import opened JsValues
  import opened Roles
  import opened Exceptions
  import opened GlobalExceptionHandler
  import opened UserModel
  import opened UserStudentService

  /** The authenticated caller: the principal's username and the granted authority names. */
  datatype Authentication = Authentication(username: string, authorities: seq<string>)

  datatype Body =
    | NoBody
    | StudentList(students: seq<UserRow>)
    | OneStudent(student: UserRow)
    /** The {"message", "deletedId"} object of a successful delete. */
    | Deleted(message: string, deletedId: string)
    | ErrorBody(error: map<Key, Json>)

  datatype Response = Response(status: int, body: Body)

  /** A response together with the users table after the request. */
  datatype Exchange = Exchange(response: Response, users: Users)

  const AccessDenied: Exception := Other("Access Denied")
  const Forbidden: Response := Response(403, NoBody)

  function AnyPrivileged(authorities: seq<string>): (r: bool)
    ensures r <==> exists k :: 0 <= k < |authorities| && (authorities[k] == "ROLE_ADMIN" || authorities[k] == "ROLE_MODERATOR")
  {
    if authorities == [] then false
    else
      assert forall k :: 1 <= k < |authorities| ==> authorities[k] == authorities[1..][k - 1];
      authorities[0] == "ROLE_ADMIN" || authorities[0] == "ROLE_MODERATOR" || AnyPrivileged(authorities[1..])
  }

  /** isAdminOrModerator: some authority is exactly ROLE_ADMIN or ROLE_MODERATOR. */
  function IsAdminOrModerator(auth: Authentication): (r: bool)
    ensures r <==> "ROLE_ADMIN" in auth.authorities || "ROLE_MODERATOR" in auth.authorities
  {
    AnyPrivileged(auth.authorities)
  }

  /** hasRole('X') in a @PreAuthorize expression: the authority ROLE_X is granted. */
  predicate HasRole(auth: Authentication, role: string) {
    "ROLE_" + role in auth.authorities
  }

  /** The gate "hasRole('USER') or hasRole('MODERATOR') or hasRole('ADMIN')". */
  predicate AnyUserRole(auth: Authentication) {
    HasRole(auth, "USER") || HasRole(auth, "MODERATOR") || HasRole(auth, "ADMIN")
  }

  /** The search gate "hasRole('MODERATOR') or hasRole('ADMIN')" is the same test as isAdminOrModerator. */
  lemma SearchGateIsPrivilege(auth: Authentication)
    ensures (HasRole(auth, "MODERATOR") || HasRole(auth, "ADMIN")) <==> IsAdminOrModerator(auth)
    ensures IsAdminOrModerator(auth) ==> AnyUserRole(auth)
  {
    assert "ROLE_" + "MODERATOR" == "ROLE_MODERATOR";
    assert "ROLE_" + "ADMIN" == "ROLE_ADMIN";
  }

  /** The rows of the given ids, in the same order. */
  function RowsOf(users: Users, ids: seq<int>): (r: seq<UserRow>)
    requires forall k :: 0 <= k < |ids| ==> ids[k] in users
    ensures |r| == |ids| && forall k :: 0 <= k < |ids| ==> r[k] == users[ids[k]]
  {
    seq(|ids|, k requires 0 <= k < |ids| => users[ids[k]])
  }

  /** The response the exception handler builds for an exception. */
  function Fail(ex: Exception, now: string): (r: Response)
    ensures r.body.ErrorBody? && r.status == Handle(ex, now).status && r.body.error == Handle(ex, now).body
  {
    var e := Handle(ex, now);
    Response(e.status, ErrorBody(e.body))
  }

  /** The response and table for a service outcome that returns the saved user. */
  function Reply(o: Outcome<UserRow>, now: string): (x: Exchange)
    ensures x.users == o.users
    ensures o.result.Ok? ==> x.response == Response(200, OneStudent(o.result.value))
    ensures o.result.Err? ==> x.response == Fail(o.result.error, now)
  {
    if o.result.Ok? then Exchange(Response(200, OneStudent(o.result.value)), o.users)
    else Exchange(Fail(o.result.error, now), o.users)
  }

  /** GET /api/students. */
  function GetAll(users: Users, auth: Authentication): (r: Response)
    ensures r.status == 200 && r.body.StudentList?
    ensures IsAdminOrModerator(auth) ==> r.body.students == RowsOf(users, GetAllStudents(users))
    ensures !IsAdminOrModerator(auth) ==>
      r.body.students == (if GetCurrentStudent(users, auth.username).Ok? then [GetCurrentStudent(users, auth.username).value] else [])
  {
    if IsAdminOrModerator(auth) then Response(200, StudentList(RowsOf(users, GetAllStudents(users))))
    else
      var current := GetCurrentStudent(users, auth.username);
      Response(200, StudentList(if current.Ok? then [current.value] else []))
  }

  /** A caller without privilege sees at most one student: their own complete profile. */
  lemma GetAllOwnProfileOnly(users: Users, auth: Authentication)
    requires !IsAdminOrModerator(auth)
    ensures |GetAll(users, auth).body.students| <= 1
    ensures forall k :: 0 <= k < |GetAll(users, auth).body.students| ==>
      GetAll(users, auth).body.students[k].username == auth.username && Complete(GetAll(users, auth).body.students[k])
    ensures |GetAll(users, auth).body.students| == 1 <==>
      exists id :: id in users && users[id].username == auth.username && Complete(users[id]) && FindByUsername(users, auth.username) == Some(id)
  {
  }

  /** The rows of a list of ids are exactly the stored rows of the listed ids. */
  lemma RowsOfMembers(users: Users, ids: seq<int>)
    requires forall k :: 0 <= k < |ids| ==> ids[k] in users
    ensures forall u :: u in RowsOf(users, ids) <==> exists id :: id in ids && id in users && users[id] == u
  {
    var rows := RowsOf(users, ids);
    forall u ensures u in rows <==> exists id :: id in ids && id in users && users[id] == u {
      if exists id :: id in ids && id in users && users[id] == u {
        var id :| id in ids && id in users && users[id] == u;
        var k :| 0 <= k < |ids| && ids[k] == id;
        assert rows[k] == u;
      }
    }
  }

  /** A privileged caller sees every complete profile, newest id first. */
  lemma GetAllPrivileged(users: Users, auth: Authentication)
    requires IsAdminOrModerator(auth)
    ensures forall u :: u in GetAll(users, auth).body.students <==> exists id :: id in users && users[id] == u && Complete(u)
  {
    var ids := GetAllStudents(users);
    assert GetAll(users, auth).body.students == RowsOf(users, ids);
    RowsOfMembers(users, ids);
  }

  /** GET /api/students/{id}. */
  function GetById(users: Users, auth: Authentication, id: int, now: string): (r: Response)
    ensures IsAdminOrModerator(auth) ==>
      r == (if GetStudentById(users, id).Ok? then Response(200, OneStudent(users[id])) else Fail(GetStudentById(users, id).error, now))
    ensures !IsAdminOrModerator(auth) ==>
      var current := GetCurrentStudent(users, auth.username);
      r == (if current.Err? then Fail(current.error, now)
            else if current.value.id != id then Forbidden
            else Response(200, OneStudent(current.value)))
  {
    if IsAdminOrModerator(auth) then
      var found := GetStudentById(users, id);
      if found.Ok? then Response(200, OneStudent(found.value)) else Fail(found.error, now)
    else
      var current := GetCurrentStudent(users, auth.username);
      if current.Err? then Fail(current.error, now)
      else if current.value.id != id then Forbidden
      else Response(200, OneStudent(current.value))
  }

  /** The service method a privileged PUT routes to: with roles only when the list is non-null and non-empty. */
  function PrivilegedUpdate(users: Users, id: int, req: UpdateUserRequest, available: set<ERole>,
                            encode: string -> string): (o: Outcome<UserRow>)
    ensures req.roles.Some? && req.roles.value != [] ==> o == UpdateWithRoles(users, id, req, req.roles, available, encode)
    ensures req.roles.None? || req.roles == Some([]) ==> o == UpdateById(users, id, req, encode)
  {
    if req.roles.Some? && req.roles.value != [] then UpdateWithRoles(users, id, req, req.roles, available, encode)
    else UpdateById(users, id, req, encode)
  }

  /** PUT /api/students/{id}. */
  function Put(users: Users, auth: Authentication, id: int, req: UpdateUserRequest, available: set<ERole>,
               encode: string -> string, now: string): (x: Exchange)
    ensures !AnyUserRole(auth) ==> x == Exchange(Fail(AccessDenied, now), users)
    ensures AnyUserRole(auth) && IsAdminOrModerator(auth) ==>
      x == Reply(PrivilegedUpdate(users, id, req, available, encode), now)
    ensures AnyUserRole(auth) && !IsAdminOrModerator(auth) ==>
      var current := GetCurrentStudent(users, auth.username);
      x == (if current.Err? then Exchange(Fail(current.error, now), users)
            else if current.value.id != id then Exchange(Forbidden, users)
            else Reply(UpdateProfile(users, auth.username, req, encode), now))
  {
    if !AnyUserRole(auth) then Exchange(Fail(AccessDenied, now), users)
    else if IsAdminOrModerator(auth) then Reply(PrivilegedUpdate(users, id, req, available, encode), now)
    else
      var current := GetCurrentStudent(users, auth.username);
      if current.Err? then Exchange(Fail(current.error, now), users)
      else if current.value.id != id then Exchange(Forbidden, users)
      else Reply(UpdateProfile(users, auth.username, req, encode), now)
  }

  /** PUT /api/students/profile. */
  function PutProfile(users: Users, auth: Authentication, req: UpdateUserRequest, encode: string -> string,
                      now: string): (x: Exchange)
    ensures !AnyUserRole(auth) ==> x == Exchange(Fail(AccessDenied, now), users)
    ensures AnyUserRole(auth) ==> x == Reply(UpdateProfile(users, auth.username, req, encode), now)
  {
    if !AnyUserRole(auth) then Exchange(Fail(AccessDenied, now), users)
    else Reply(UpdateProfile(users, auth.username, req, encode), now)
  }

  const DeletedByStaff: string := "Student deleted successfully"
  const DeletedOwn: string := "Your profile deleted successfully"

  function DeletedReply(message: string, id: int): (r: Response)
    ensures r.status == 200 && r.body.Deleted?
    ensures r.body.message == message && r.body.deletedId == IntToString(id)
  {
    Response(200, Deleted(message, IntToString(id)))
  }

  /** DELETE /api/students/{id}. */
  function Delete(users: Users, auth: Authentication, id: int, now: string): (x: Exchange)
    ensures !AnyUserRole(auth) ==> x == Exchange(Fail(AccessDenied, now), users)
    ensures AnyUserRole(auth) && IsAdminOrModerator(auth) ==>
      x == (if id in users then Exchange(DeletedReply(DeletedByStaff, id), users - {id})
            else Exchange(Fail(DeleteById(users, id).result.error, now), users))
    ensures AnyUserRole(auth) && !IsAdminOrModerator(auth) ==>
      var current := GetCurrentStudent(users, auth.username);
      x == (if current.Err? then Exchange(Fail(current.error, now), users)
            else if current.value.id != id then Exchange(Forbidden, users)
            else if id in users then Exchange(DeletedReply(DeletedOwn, id), users - {id})
            else Exchange(Fail(DeleteById(users, id).result.error, now), users))
  {
    if !AnyUserRole(auth) then Exchange(Fail(AccessDenied, now), users)
    else if IsAdminOrModerator(auth) then DeleteReply(DeleteById(users, id), DeletedByStaff, id, now)
    else
      var current := GetCurrentStudent(users, auth.username);
      if current.Err? then Exchange(Fail(current.error, now), users)
      else if current.value.id != id then Exchange(Forbidden, users)
      else DeleteReply(DeleteById(users, id), DeletedOwn, id, now)
  }

  /** The response and table for a deletion outcome: the success body names the id, a failure goes to the handler. */
  function DeleteReply(o: Outcome<()>, message: string, id: int, now: string): (x: Exchange)
    ensures x.users == o.users
    ensures o.result.Ok? ==> x.response == DeletedReply(message, id)
    ensures o.result.Err? ==> x.response == Fail(o.result.error, now)
  {
    if o.result.Ok? then Exchange(DeletedReply(message, id), o.users) else Exchange(Fail(o.result.error, now), o.users)
  }

  /** GET /api/students/search. */
  function Search(users: Users, auth: Authentication, keyword: string, now: string): (r: Response)
    ensures !IsAdminOrModerator(auth) ==> r == Fail(AccessDenied, now)
    ensures IsAdminOrModerator(auth) ==> r == Response(200, StudentList(RowsOf(users, SearchStudents(users, keyword))))
  {
    var gate := HasRole(auth, "MODERATOR") || HasRole(auth, "ADMIN");
    assert gate == IsAdminOrModerator(auth) by {
      SearchGateIsPrivilege(auth);
    }
    if gate then
      Response(200, StudentList(RowsOf(users, SearchStudents(users, keyword))))
    else Fail(AccessDenied, now)
  }

  /** GET /api/students/me: any failure becomes an empty 404. */
  function Me(users: Users, auth: Authentication, now: string): (r: Response)
    ensures !AnyUserRole(auth) ==> r == Fail(AccessDenied, now)
    ensures AnyUserRole(auth) ==>
      r == (if GetCurrentStudent(users, auth.username).Ok? then Response(200, OneStudent(GetCurrentStudent(users, auth.username).value))
            else Response(404, NoBody))
  {
    if !AnyUserRole(auth) then Fail(AccessDenied, now)
    else
      var current := GetCurrentStudent(users, auth.username);
      if current.Ok? then Response(200, OneStudent(current.value)) else Response(404, NoBody)
  }

  /** The caller's own student id, when they are a student. */
  predicate OtherThanOwn(users: Users, auth: Authentication, id: int) {
    GetCurrentStudent(users, auth.username).Ok? && GetCurrentStudent(users, auth.username).value.id != id
  }

  /** A caller without privilege who asks for someone else's id gets 403, and nothing is changed. */
  lemma ForbiddenChangesNothing(users: Users, auth: Authentication, id: int, req: UpdateUserRequest,
                                available: set<ERole>, encode: string -> string, now: string)
    requires AnyUserRole(auth) && !IsAdminOrModerator(auth) && OtherThanOwn(users, auth, id)
    ensures GetById(users, auth, id, now) == Forbidden
    ensures Put(users, auth, id, req, available, encode, now) == Exchange(Forbidden, users)
    ensures Delete(users, auth, id, now) == Exchange(Forbidden, users)
  {
  }

  /** The exception handler never answers 200 or 403. */
  lemma FailStatus(ex: Exception, now: string)
    ensures Fail(ex, now).status != 200 && Fail(ex, now).status != 403
  {
    StatusTable(ex, now);
  }

  /** A service outcome turned into a reply is 200 exactly when the service succeeded, and never 403. */
  lemma ReplyStatus(o: Outcome<UserRow>, now: string)
    ensures Reply(o, now).response.status == 200 <==> o.result.Ok?
    ensures Reply(o, now).response.status != 403
  {
    if o.result.Err? {
      FailStatus(o.result.error, now);
    }
  }

  /** PUT /{id} answers 403 only to a caller without privilege asking for someone else's id. */
  lemma PutForbiddenOnlyForOthers(users: Users, auth: Authentication, id: int, req: UpdateUserRequest,
                                  available: set<ERole>, encode: string -> string, now: string)
    ensures Put(users, auth, id, req, available, encode, now).response.status == 403 ==>
      !IsAdminOrModerator(auth) && OtherThanOwn(users, auth, id)
  {
    var x := Put(users, auth, id, req, available, encode, now);
    var current := GetCurrentStudent(users, auth.username);
    if !AnyUserRole(auth) {
      FailStatus(AccessDenied, now);
    } else if IsAdminOrModerator(auth) {
      assert x == Reply(PrivilegedUpdate(users, id, req, available, encode), now);
      ReplyStatus(PrivilegedUpdate(users, id, req, available, encode), now);
    } else if current.Err? {
      FailStatus(current.error, now);
    } else if current.value.id == id {
      assert x == Reply(UpdateProfile(users, auth.username, req, encode), now);
      ReplyStatus(UpdateProfile(users, auth.username, req, encode), now);
    }
  }

  /** DELETE /{id} answers 403 only to a caller without privilege asking for someone else's id. */
  lemma DeleteForbiddenOnlyForOthers(users: Users, auth: Authentication, id: int, now: string)
    ensures Delete(users, auth, id, now).response.status == 403 ==> !IsAdminOrModerator(auth) && OtherThanOwn(users, auth, id)
  {
    var x := Delete(users, auth, id, now);
    var deleted := DeleteById(users, id);
    var current := GetCurrentStudent(users, auth.username);
    if !AnyUserRole(auth) {
      FailStatus(AccessDenied, now);
    } else if IsAdminOrModerator(auth) {
      assert x == DeleteReply(deleted, DeletedByStaff, id, now);
      DeleteReplyShape(deleted, DeletedByStaff, id, now);
      if deleted.result.Err? {
        FailStatus(deleted.result.error, now);
      }
    } else if current.Err? {
      FailStatus(current.error, now);
    } else if current.value.id == id {
      assert x == DeleteReply(deleted, DeletedOwn, id, now);
      DeleteReplyShape(deleted, DeletedOwn, id, now);
      if deleted.result.Err? {
        FailStatus(deleted.result.error, now);
      }
    }
  }

  /** GET /{id} answers 403 only to a caller without privilege asking for someone else's id. */
  lemma GetByIdForbiddenOnlyForOthers(users: Users, auth: Authentication, id: int, now: string)
    ensures GetById(users, auth, id, now).status == 403 ==> !IsAdminOrModerator(auth) && OtherThanOwn(users, auth, id)
  {
    var found := GetStudentById(users, id);
    var current := GetCurrentStudent(users, auth.username);
    if IsAdminOrModerator(auth) {
      if found.Err? {
        FailStatus(found.error, now);
      }
    } else if current.Err? {
      FailStatus(current.error, now);
    }
  }

  /**
   * The service's "empty list clears every role" branch is unreachable from
   * the controller: an empty role list is routed like an absent one.
   */
  lemma EmptyRoleListKeepsRoles(users: Users, auth: Authentication, id: int, req: UpdateUserRequest,
                                available: set<ERole>, encode: string -> string, now: string)
    requires req.roles == Some([])
    ensures Put(users, auth, id, req, available, encode, now) == Put(users, auth, id, req.(roles := None), available, encode, now)
  {
    var bare := req.(roles := None);
    var x := Put(users, auth, id, req, available, encode, now);
    if AnyUserRole(auth) && IsAdminOrModerator(auth) {
      assert x == Reply(UpdateById(users, id, req, encode), now);
      UpdateIgnoresRoles(users, id, req, encode);
    } else if AnyUserRole(auth) {
      var found := FindByUsername(users, auth.username);
      if found.Some? {
        UpdateIgnoresRoles(users, found.value, req, encode);
        assert UpdateProfile(users, auth.username, req, encode) == UpdateProfile(users, auth.username, bare, encode);
      }
    }
  }

  /** Without the role list in play, an update by id does not read the request's roles. */
  lemma UpdateIgnoresRoles(users: Users, id: int, req: UpdateUserRequest, encode: string -> string)
    ensures UpdateById(users, id, req, encode) == UpdateById(users, id, req.(roles := None), encode)
    ensures id in users ==> Merge(users[id], req, encode) == Merge(users[id], req.(roles := None), encode)
  {
    if id in users {
      MergeIgnoresRoles(users[id], req, encode);
    }
  }

  /** The shared merge does not read the request's role list. */
  lemma MergeIgnoresRoles(row: UserRow, req: UpdateUserRequest, encode: string -> string)
    ensures Merge(row, req, encode) == Merge(row, req.(roles := None), encode)
  {
  }

  /** Saving a merged row changes the roles of no row but the merged one, which gets the merged roles. */
  lemma CommittedRoles(users: Users, merged: Result<UserRow, Exception>)
    ensures var o := Commit(users, merged);
      forall j :: j in o.users && j in users && o.users[j].roles != users[j].roles ==>
        merged.Ok? && j == merged.value.id && o.users[j].roles == merged.value.roles
    ensures var o := Commit(users, merged);
      o.users.Keys == users.Keys || (merged.Ok? && o.users.Keys == users.Keys + {merged.value.id})
  {
  }

  /** A save through either update path without roles leaves every role set as it was. */
  lemma MergedRolesKept(users: Users, id: int, req: UpdateUserRequest, encode: string -> string)
    requires KeyedById(users) && id in users
    ensures var o := Commit(users, Merge(users[id], req, encode));
      o.users.Keys == users.Keys && forall j :: j in users ==> o.users[j].roles == users[j].roles
  {
    CommittedRoles(users, Merge(users[id], req, encode));
  }

  /** An update with a role list changes only the updated row's roles, to the list's conversion. */
  lemma ListedRolesOnly(users: Users, id: int, req: UpdateUserRequest, available: set<ERole>, encode: string -> string)
    requires KeyedById(users) && id in users && req.roles.Some?
    ensures var o := Commit(users, WithRoles(Merge(users[id], req, encode), req.roles, available));
      forall j :: j in o.users && j in users && o.users[j].roles != users[j].roles ==>
        j == id && o.users[j].roles == ConvertedRoles(req.roles.value, available)
  {
    var merged := Merge(users[id], req, encode);
    CommittedRoles(users, WithRoles(merged, req.roles, available));
    if merged.Ok? {
      var applied := RolesApplied(merged.value, req.roles, available);
      assert applied.id == id && applied.roles == ConvertedRoles(req.roles.value, available);
    }
  }

  /** The privileged update changes a role set only when given a non-empty list, and only the target's. */
  lemma PrivilegedRoleChanges(users: Users, id: int, req: UpdateUserRequest, available: set<ERole>,
                              encode: string -> string)
    requires KeyedById(users)
    ensures var o := PrivilegedUpdate(users, id, req, available, encode);
      forall j :: j in o.users && j in users && o.users[j].roles != users[j].roles ==>
        j == id && req.roles.Some? && req.roles.value != [] && o.users[j].roles == ConvertedRoles(req.roles.value, available)
  {
    if id in users {
      if req.roles.Some? && req.roles.value != [] {
        ListedRolesOnly(users, id, req, available, encode);
      } else {
        MergedRolesKept(users, id, req, encode);
      }
    }
  }

  /** Every role change made through PUT /{id} is a replacement by a non-empty list's conversion. */
  lemma RolesChangeOnlyByList(users: Users, auth: Authentication, id: int, req: UpdateUserRequest,
                              available: set<ERole>, encode: string -> string, now: string)
    requires KeyedById(users)
    ensures var x := Put(users, auth, id, req, available, encode, now);
      forall j :: j in x.users && j in users && x.users[j].roles != users[j].roles ==>
        j == id && IsAdminOrModerator(auth) && req.roles.Some? && req.roles.value != []
        && x.users[j].roles == ConvertedRoles(req.roles.value, available)
  {
    var x := Put(users, auth, id, req, available, encode, now);
    if !IsAdminOrModerator(auth) {
      SelfUpdateKeepsRoles(users, auth, id, req, available, encode, now);
    } else if AnyUserRole(auth) {
      assert x == Reply(PrivilegedUpdate(users, id, req, available, encode), now);
      PrivilegedRoleChanges(users, id, req, available, encode);
    }
  }

  /** A caller without privilege never changes a role set through either PUT endpoint. */
  lemma SelfUpdateKeepsRoles(users: Users, auth: Authentication, id: int, req: UpdateUserRequest,
                             available: set<ERole>, encode: string -> string, now: string)
    requires KeyedById(users) && !IsAdminOrModerator(auth)
    ensures var x := Put(users, auth, id, req, available, encode, now);
      x.users.Keys == users.Keys && forall j :: j in users ==> x.users[j].roles == users[j].roles
    ensures var x := PutProfile(users, auth, req, encode, now);
      x.users.Keys == users.Keys && forall j :: j in users ==> x.users[j].roles == users[j].roles
  {
    var found := FindByUsername(users, auth.username);
    var current := GetCurrentStudent(users, auth.username);
    var x := Put(users, auth, id, req, available, encode, now);
    var y := PutProfile(users, auth, req, encode, now);
    if found.Some? {
      MergedRolesKept(users, found.value, req, encode);
    }
    if AnyUserRole(auth) {
      assert y == Reply(UpdateProfile(users, auth.username, req, encode), now);
      if current.Ok? && current.value.id == id {
        assert x == Reply(UpdateProfile(users, auth.username, req, encode), now);
      }
    }
  }

  /** A privileged list of nothing but unknown names strips every role. */
  lemma UnknownNamesStripRoles(users: Users, auth: Authentication, id: int, req: UpdateUserRequest,
                               available: set<ERole>, encode: string -> string, now: string)
    requires KeyedById(users) && AnyUserRole(auth) && IsAdminOrModerator(auth)
    requires req.roles.Some? && req.roles.value != [] && forall k :: 0 <= k < |req.roles.value| ==> Parse(req.roles.value[k]).None?
    ensures var x := Put(users, auth, id, req, available, encode, now);
      x.response.status == 200 ==> x.users[id].roles == {}
  {
  }

  /** A delete outcome turned into a reply: 200 with the deleted body exactly when the service deleted, and the service's table. */
  lemma DeleteReplyShape(o: Outcome<()>, message: string, id: int, now: string)
    ensures var x := DeleteReply(o, message, id, now);
      (x.response.status == 200 <==> o.result.Ok?) && x.users == o.users
      && (o.result.Ok? ==> x.response == DeletedReply(message, id))
  {
    if o.result.Err? {
      FailStatus(o.result.error, now);
    }
  }

  /** A successful delete answers with the path id as a decimal string and a message that tells who deleted. */
  lemma DeleteResponse(users: Users, auth: Authentication, id: int, now: string)
    ensures var x := Delete(users, auth, id, now);
      x.response.status == 200 ==>
        && x.response.body.Deleted?
        && x.response.body.deletedId == IntToString(id)
        && x.response.body.message == (if IsAdminOrModerator(auth) then DeletedByStaff else DeletedOwn)
        && x.users == users - {id} && id in users
    ensures var x := Delete(users, auth, id, now);
      x.response.status != 200 ==> x.users == users
  {
    var x := Delete(users, auth, id, now);
    var deleted := DeleteById(users, id);
    FailStatus(AccessDenied, now);
    if !AnyUserRole(auth) {
    } else if IsAdminOrModerator(auth) {
      assert x == DeleteReply(deleted, DeletedByStaff, id, now);
      DeleteReplyShape(deleted, DeletedByStaff, id, now);
    } else {
      var current := GetCurrentStudent(users, auth.username);
      if current.Err? {
        FailStatus(current.error, now);
      } else if current.value.id == id {
        assert x == DeleteReply(deleted, DeletedOwn, id, now);
        DeleteReplyShape(deleted, DeletedOwn, id, now);
      }
    }
  }
}
