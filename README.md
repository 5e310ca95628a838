# Student registration system — a Dafny model

This project models the core of a student registration system. The system has two tiers.

The back end is a Spring Boot service over two tables:
- `users`: accounts that become students once they have a full name and an enrollment date;
- `students`: a separate student table with its own service.

The front end is a React client. It provides sign-in, self-registration, a self-service profile form for ordinary users, and a dashboard for moderators and administrators.

The model covers four groups.

1. **The back-end record stores and their update rules.**
   - Each table is a map from id to row, with the unique columns stated as predicates (`UniqueEmails`, `UniqueUsernames`).
   - Each service operation is a function from the old table to an `Outcome`: a `Result` plus the table after the call.
   - A transaction that throws leaves the table unchanged.
   - The classes `StudentService.Service` and `UserStudentService.Service` hold the table as a field. Their methods are proved equal to those functions.
   - The student table's IDENTITY counter is the field `nextId`, kept above every stored id (`Fresh`).
   - The password encoder is a function parameter.
2. **The back-end decision tables.**
   - The controller's access and routing rules, per endpoint, over the caller's authorities and the path id.
   - The exception handler's map from exception kind to status, title, message and body keys.
3. **The front-end validators, search filters and normalisers.**
   - The React state cells of each hook or component are the fields of a class. Its handlers are methods.
   - Requests do not happen. Each request is replaced by its outcome (`HttpOutcome`: a 2xx response, a non-2xx response, no response, or a setup error), which the method receives as a parameter.
   - `window.confirm` is a boolean parameter, and "today" is an integer day key.
4. **The session and view state.**
   - The browser's `localStorage` is `AuthService.Storage`.
   - Also modelled: the `useAuth` cells, the message banners, and the render choices of `App`, `AuthenticatedApp` and `AdminDashboard`.

Choices worth knowing when reading the model:

- **Result order.** `findAll()` and `@Query` methods have no `ORDER BY`. The model returns their rows in ascending id order (`Ids.Ascending`). `findAll(Sort.by(DESC, "id"))` gives descending order (`Ids.Descending`).
- **Validation-error entries kept as written.** The administrator's edit form reads `validationErrors` entries as objects with `field` and `message`. The back end sends them as strings, so every entry renders as `undefined: undefined`. `UserManagement.StringEntriesShowUndefined` proves this. The model keeps the client as written because the source does not say which side is wrong.
- **Clearing all roles cannot be reached.** The service clears every role on an empty role list. That branch cannot be reached through the controller, which sends an empty list down the plain update path (`UserStudentController.EmptyRoleListKeepsRoles`).
- **Refresh drops the search term.** After a refresh, both client lists are reset to the full response, whatever the search term is. `UseStudentManagement.StudentManagement.FetchStudents` and `UserManagement.Management.FetchUsers` state this.
- **Dates.** Dates are "YYYY-MM-DD" strings on the client and integer day keys `y*10000+m*100+d` on the back end (`Dates.DayKey`). That key orders dates the way the calendar does. A string that is not date-shaped has no key, like JavaScript's Invalid Date, which compares false.

Source paths below are relative to the repository root.

## Model

| member | source | states |
|---|---|---|
| StudentModel.NormaliseEmail | backend/src/main/java/com/example/registration/model/Student.java:64-66 | The normalised email is trimmed, lower-case and no longer than the input. |
| StudentModel.NormaliseEmailIdempotent | backend/src/main/java/com/example/registration/model/Student.java:64-66 | Setting an already stored email again leaves it unchanged. |
| StudentModel.Student.Empty | backend/src/main/java/com/example/registration/model/Student.java:34 | The no-argument constructor leaves every field null. |
| StudentModel.Student.constructor | backend/src/main/java/com/example/registration/model/Student.java:37-41 | The three-argument constructor stores name and email exactly as given, bypassing the normalising setters, and leaves the id null. |
| StudentModel.Student.Load | backend/src/main/java/com/example/registration/model/Student.java:12-31 | A managed entity loaded from a stored row holds that row's id and fields. |
| StudentModel.Student.SetId | backend/src/main/java/com/example/registration/model/Student.java:48-50 | Only the id changes. |
| StudentModel.Student.SetName | backend/src/main/java/com/example/registration/model/Student.java:56-58 | A name is stored trimmed, null stays null, and no other field changes. |
| StudentModel.Student.SetEmail | backend/src/main/java/com/example/registration/model/Student.java:64-66 | An email is stored trimmed and lower-cased, null stays null, and no other field changes. |
| StudentModel.Student.SetEnrollmentDate | backend/src/main/java/com/example/registration/model/Student.java:72-74 | Only the enrollment date changes. |
| StudentModel.Student.Equals | backend/src/main/java/com/example/registration/model/Student.java:88-94 | The same object, or another Student whose id is set and equal. Its properties are the three lemmas below. |
| StudentModel.Student.HashCode | backend/src/main/java/com/example/registration/model/Student.java:96-99 | The class hash, the same for every Student; HashConsistent ties it to Equals. |
| StudentModel.EqualsIsEquivalence | backend/src/main/java/com/example/registration/model/Student.java:88-94 | Identity-or-equal-non-null-id equality is reflexive, symmetric and transitive. |
| StudentModel.UnsavedDistinct | backend/src/main/java/com/example/registration/model/Student.java:88-94 | An unsaved entity (null id) equals only itself. |
| StudentModel.HashConsistent | backend/src/main/java/com/example/registration/model/Student.java:96-99 | Equal entities have equal hash codes. |
| UserModel.User.Empty | backend/src/main/java/com/example/registration/model/User.java:29-79 | The no-argument constructor gives an empty role set, isActive true and every other field null. |
| UserModel.User.WithCredentials | backend/src/main/java/com/example/registration/model/User.java:92-96 | The three-argument constructor sets the credentials and leaves fullName and enrollmentDate unset. |
| UserModel.User.WithProfile | backend/src/main/java/com/example/registration/model/User.java:98-104 | The five-argument constructor also sets fullName and enrollmentDate; roles are empty and isActive is true. |
| UserModel.User.Load | backend/src/main/java/com/example/registration/model/User.java:29-79 | A managed entity loaded from a row gives back that row on save. |
| UserModel.User.OnCreate | backend/src/main/java/com/example/registration/model/User.java:81-85 | createdAt and updatedAt become the current time and nothing else changes. |
| UserModel.User.OnUpdate | backend/src/main/java/com/example/registration/model/User.java:87-90 | Only updatedAt changes. |
| UserModel.User.SetUsername | backend/src/main/java/com/example/registration/model/User.java:26-37 | The saved row differs from the old one in the username only. |
| UserModel.User.SetEmail | backend/src/main/java/com/example/registration/model/User.java:26-43 | The saved row differs from the old one in the email only. |
| UserModel.User.SetPassword | backend/src/main/java/com/example/registration/model/User.java:26-49 | The saved row differs from the old one in the password only. |
| UserModel.User.SetFullName | backend/src/main/java/com/example/registration/model/User.java:26-55 | The saved row differs from the old one in the full name only. |
| UserModel.User.SetEnrollmentDate | backend/src/main/java/com/example/registration/model/User.java:26-61 | The saved row differs from the old one in the enrollment date only. |
| UserModel.User.SetRoles | backend/src/main/java/com/example/registration/model/User.java:26-67 | The saved row differs from the old one in the roles only. |
| Roles.ValueOf | backend/src/main/java/com/example/registration/service/UserStudentService.java:261 | ERole.valueOf succeeds exactly on the three exact constant names. |
| Roles.WithPrefix | backend/src/main/java/com/example/registration/service/UserStudentService.java:258-259 | The result starts with ROLE_, and a name already carrying the prefix is kept as is. |
| Roles.BareAndPrefixedAgree | backend/src/main/java/com/example/registration/service/UserStudentService.java:258-261 | "X" and "ROLE_X" name the same role or both fail. |
| Roles.ParseNames | backend/src/main/java/com/example/registration/service/UserStudentService.java:258-261 | Every role is found from its full name and from its bare name. |
| Roles.LowerCaseIsUnknown | backend/src/main/java/com/example/registration/service/UserStudentService.java:258-267 | A lower-case name such as "user" is not a role, so it is skipped. |
| DataInitializer.RoleRepository.constructor | backend/src/main/java/com/example/registration/config/DataInitializer.java:13-14 | The repository starts with the given rows. |
| DataInitializer.RoleRepository.FindByName | backend/src/main/java/com/example/registration/config/DataInitializer.java:19 | A role is found exactly when some row holds it. |
| DataInitializer.RoleRepository.Save | backend/src/main/java/com/example/registration/config/DataInitializer.java:20 | Saving appends one row. |
| DataInitializer.Run | backend/src/main/java/com/example/registration/config/DataInitializer.java:17-30 | The rows after run() are the seeding function of the rows before. |
| DataInitializer.AllPresent | backend/src/main/java/com/example/registration/config/DataInitializer.java:17-30 | After seeding, ROLE_USER, ROLE_MODERATOR and ROLE_ADMIN are all present. |
| DataInitializer.KeepsOldRows | backend/src/main/java/com/example/registration/config/DataInitializer.java:17-30 | Seeding only appends: the old rows are a prefix of the new. |
| DataInitializer.NoNewDuplicates | backend/src/main/java/com/example/registration/config/DataInitializer.java:19-29 | A role present before keeps its count, and a missing one is added exactly once. Nothing else is added. |
| DataInitializer.Idempotent | backend/src/main/java/com/example/registration/config/DataInitializer.java:17-30 | Seeding twice gives the same rows as seeding once. |
| StudentRepository.FindByEmail | backend/src/main/java/com/example/registration/repository/StudentRepository.java:13 | A row is found exactly when the email is stored. Under unique emails it is the only such row. |
| StudentRepository.KeywordMatch | backend/src/main/java/com/example/registration/repository/StudentRepository.java:22-24 | The lower-cased name or email contains the lower-cased keyword. |
| StudentRepository.KeywordMatchIgnoresCase | backend/src/main/java/com/example/registration/repository/StudentRepository.java:22-25 | Lower-casing the keyword first changes no match. |
| StudentRepository.FindByKeyword | backend/src/main/java/com/example/registration/repository/StudentRepository.java:22-25 | The ids returned are exactly those whose lower-cased name or email contains the lower-cased keyword, in increasing order. |
| StudentRepository.CountByEnrollmentDate | backend/src/main/java/com/example/registration/repository/StudentRepository.java:28-29 | The count is zero exactly when no stored student enrolled on that day. |
| StudentRepository.CountByEnrollmentDateBetween | backend/src/main/java/com/example/registration/repository/StudentRepository.java:31-32 | The count is zero exactly when no stored student enrolled within the inclusive range. |
| StudentRepository.ExistsByEmailAndIdNot | backend/src/main/java/com/example/registration/repository/StudentRepository.java:35-36 | Some stored student other than the id has exactly this email. ExistsByEmailAndIdNotExcludesOwn relates it to the plain email check. |
| StudentRepository.BetweenSingleDay | backend/src/main/java/com/example/registration/repository/StudentRepository.java:28-32 | Counting between d and d counts exactly the rows dated d, so both bounds are inclusive. |
| StudentRepository.BetweenEmpty | backend/src/main/java/com/example/registration/repository/StudentRepository.java:31-32 | A range whose end is before its start counts nothing. |
| StudentRepository.BetweenSplit | backend/src/main/java/com/example/registration/repository/StudentRepository.java:31-32 | A range count splits into two adjacent ranges. |
| StudentRepository.ExistsByEmailAndIdNotExcludesOwn | backend/src/main/java/com/example/registration/repository/StudentRepository.java:35-36 | The test finds only other rows. A row's own email never counts against it under unique emails. |
| StudentService.SaveRow | backend/src/main/java/com/example/registration/service/StudentService.java:31 | A save fails on the unique email column exactly when another row holds the email. Otherwise it writes that row and keeps emails unique. |
| StudentService.SaveAll | backend/src/main/java/com/example/registration/service/StudentService.java:146 | saveAll returns one id per entity and keeps the counter above every stored id and emails unique. Its only failure is the unique-email constraint. |
| StudentService.SaveAllTable | backend/src/main/java/com/example/registration/service/StudentService.java:146 | The stored ids after saveAll are the old ones plus those saved under. An entity whose id is stored keeps that id, and one without a stored id gets an id that was free. Rows no entity names keep their values, and each row holds the last entity saved under its id. |
| StudentService.SaveAllIds | backend/src/main/java/com/example/registration/service/StudentService.java:146 | Entities without ids draw consecutive ids from the counter. |
| StudentService.SaveAllPlace | backend/src/main/java/com/example/registration/service/StudentService.java:146 | The k-th entity of a batch without ids is stored under nextId + k, an id that was free. |
| StudentService.SaveAllSucceeds | backend/src/main/java/com/example/registration/service/StudentService.java:139-147 | A batch of entities without ids is saved successfully exactly when no batch email is stored and the batch emails are distinct. |
| StudentService.FirstTaken | backend/src/main/java/com/example/registration/service/StudentService.java:141-145 | The index returned is the first batch row whose email is already stored. None means there is no such row. |
| StudentService.Add | backend/src/main/java/com/example/registration/service/StudentService.java:27-32 | addStudent fails with Duplicate exactly when the email is stored, and then leaves the table unchanged. Otherwise, if the request carries a stored id, the row under that id is overwritten and the set of ids stays the same. If not, one row is added under the next free id. |
| StudentService.Update | backend/src/main/java/com/example/registration/service/StudentService.java:60-74 | It gives NotFound exactly for an absent id, and Duplicate when the email changes to one held by another id. Otherwise it writes the copied fields under the same id. |
| StudentService.Delete | backend/src/main/java/com/example/registration/service/StudentService.java:77-82 | It gives NotFound exactly for an absent id. Otherwise only that id is removed. |
| StudentService.DeleteMany | backend/src/main/java/com/example/registration/service/StudentService.java:85-91 | A failing bulk delete changes nothing. A succeeding one removes exactly the listed ids. |
| StudentService.DeleteManyAllOrNothing | backend/src/main/java/com/example/registration/service/StudentService.java:85-91 | The bulk delete succeeds exactly when the ids are distinct and all stored, since the found count must equal the list length. |
| StudentService.AddMany | backend/src/main/java/com/example/registration/service/StudentService.java:139-147 | addStudents rejects the whole batch with Duplicate if any email is stored, and leaves the table unchanged on any failure. Otherwise its result and table are saveAll's, and emails stay unique. |
| StudentService.AddManyInserts | backend/src/main/java/com/example/registration/service/StudentService.java:139-147 | A successful batch without ids puts the k-th entity in a row that was free, under nextId + k. |
| StudentService.AddManyWithinBatchDuplicate | backend/src/main/java/com/example/registration/service/StudentService.java:141-146 | For a batch without ids whose emails are not stored, the pre-check looks only at stored rows. A duplicate inside the batch surfaces as the column constraint's DataIntegrityViolation. |
| StudentService.GetAll | backend/src/main/java/com/example/registration/service/StudentService.java:36-38 | Every stored id once, in decreasing order. |
| StudentService.Search | backend/src/main/java/com/example/registration/service/StudentService.java:95-100 | A null or blank keyword returns getAllStudents. Otherwise the result is the keyword query on the trimmed keyword. |
| StudentService.UpdateKeepingEmail | backend/src/main/java/com/example/registration/service/StudentService.java:64-68 | Keeping one's own email is always allowed. |
| StudentService.UpdateTouchesOnlyItsRow | backend/src/main/java/com/example/registration/service/StudentService.java:70-73 | An update keeps the set of ids and every other row. |
| StudentService.UpdateAfterCheck | backend/src/main/java/com/example/registration/service/StudentService.java:64-73 | Once the service's own check passes, the save can fail only through the table constraint, as the model states it. |
| StudentService.Service.constructor | backend/src/main/java/com/example/registration/service/StudentService.java:22-24 | The service starts over an empty table with the counter invariant. |
| StudentService.Service.AddStudent | backend/src/main/java/com/example/registration/service/StudentService.java:27-32 | The new table and result are Add's. The counter moves past the new id only when a row is inserted. |
| StudentService.Service.UpdateStudent | backend/src/main/java/com/example/registration/service/StudentService.java:60-74 | The new table and result are Update's. |
| StudentService.Service.DeleteStudent | backend/src/main/java/com/example/registration/service/StudentService.java:77-82 | The new table and result are Delete's. |
| StudentService.Service.DeleteStudents | backend/src/main/java/com/example/registration/service/StudentService.java:85-91 | The new table and result are DeleteMany's. |
| StudentService.Service.AddStudents | backend/src/main/java/com/example/registration/service/StudentService.java:139-147 | The new table and result are AddMany's. The counter is saveAll's on success and unchanged on failure. |
| StudentService.CopyFields | backend/src/main/java/com/example/registration/service/StudentService.java:70-72 | The setters copy name, email and date, so the row is trimmed and the email lower-case. |
| StudentService.FindFirstTaken | backend/src/main/java/com/example/registration/service/StudentService.java:141-145 | The loop finds the same index as FirstTaken. |
| StudentService.FirstTakenIsFirst | backend/src/main/java/com/example/registration/service/StudentService.java:141-145 | The first stored email in the batch is the one reported. |
| UserStudentService.FindByUsername | backend/src/main/java/com/example/registration/service/UserStudentService.java:62 | A user is found exactly when the username is stored, and it is unique under the table constraint. |
| UserStudentService.Complete | backend/src/main/java/com/example/registration/service/UserStudentService.java:41 | A user is a student once full name and enrollment date are both set. |
| UserStudentService.GetAllStudents | backend/src/main/java/com/example/registration/service/UserStudentService.java:38-43 | Exactly the users with a full name and an enrollment date, in decreasing id order. |
| UserStudentService.GetStudentById | backend/src/main/java/com/example/registration/service/UserStudentService.java:53-57 | It succeeds exactly for a stored complete profile. It gives StudentNotFound both for an absent user and for an incomplete one. |
| UserStudentService.GetCurrentStudent | backend/src/main/java/com/example/registration/service/UserStudentService.java:61-65 | It gives the caller's own complete profile, else StudentNotFound. |
| UserStudentService.SearchStudents | backend/src/main/java/com/example/registration/service/UserStudentService.java:238-248 | Complete profiles whose lower-cased full name, email or username contains the lower-cased keyword, and only those. |
| UserStudentService.SearchMatch | backend/src/main/java/com/example/registration/service/UserStudentService.java:241-246 | The lower-cased full name, email or username contains the lower-cased keyword. |
| UserStudentService.Merge | backend/src/main/java/com/example/registration/service/UserStudentService.java:118-156 | It rejects exactly a provided blank field and a short password. Null fields keep the stored value, text is stored trimmed, the password encoded, and the id never changes. |
| UserStudentService.MergeErrorOrder | backend/src/main/java/com/example/registration/service/UserStudentService.java:119-154 | Username, email, full name and then password are checked, in that order. |
| UserStudentService.BlankPasswordIgnored | backend/src/main/java/com/example/registration/service/UserStudentService.java:149-154 | A blank password is treated as not provided. |
| UserStudentService.CollectMembers | backend/src/main/java/com/example/registration/service/UserStudentService.java:255-268 | The loop's set holds exactly the available roles named by some entry. |
| UserStudentService.ConvertedRoles | backend/src/main/java/com/example/registration/service/UserStudentService.java:251-272 | A role is in the result exactly when some name parses to it and its row exists. |
| UserStudentService.ConvertStringRolesToRoles | backend/src/main/java/com/example/registration/service/UserStudentService.java:251-272 | The loop over the names returns ConvertedRoles. |
| UserStudentService.ConvertBareOrPrefixed | backend/src/main/java/com/example/registration/service/UserStudentService.java:258-261 | Appending "X" or "ROLE_X" gives the same set. |
| UserStudentService.ConvertSkipsUnknown | backend/src/main/java/com/example/registration/service/UserStudentService.java:261-267 | An unknown name is skipped silently. |
| UserStudentService.ConvertIgnoresRepeats | backend/src/main/java/com/example/registration/service/UserStudentService.java:251-272 | Repeating a name adds nothing, so the result is duplicate-free. |
| UserStudentService.RolesApplied | backend/src/main/java/com/example/registration/service/UserStudentService.java:202-212 | Null keeps the roles, an empty list clears them, and a list replaces them with the converted set. No other field changes. |
| UserStudentService.Clash | backend/src/main/java/com/example/registration/model/User.java:21-25 | Saving clashes exactly when another user holds the same username or email. |
| UserStudentService.SaveUser | backend/src/main/java/com/example/registration/service/UserStudentService.java:156 | The save succeeds exactly without a clash, writes the row under its id and keeps the table well formed. |
| UserStudentService.Commit | backend/src/main/java/com/example/registration/service/UserStudentService.java:149-156 | A failed merge or save leaves the table unchanged, and the table stays well formed. |
| UserStudentService.UpdateProfile | backend/src/main/java/com/example/registration/service/UserStudentService.java:68-111 | The self-update finds the caller by username, else gives StudentNotFound. It merges into the caller's own row. |
| UserStudentService.UpdateById | backend/src/main/java/com/example/registration/service/UserStudentService.java:114-157 | An absent id gives StudentNotFound with the table unchanged. Otherwise it commits the merge. |
| UserStudentService.UpdateWithRoles | backend/src/main/java/com/example/registration/service/UserStudentService.java:160-215 | Like UpdateById, with the roles applied after the merge. |
| UserStudentService.WithRoles | backend/src/main/java/com/example/registration/service/UserStudentService.java:202-212 | A merge error passes through unchanged. A merged row changes only its roles, and keeps them when no list was sent. |
| UserStudentService.DeleteById | backend/src/main/java/com/example/registration/service/UserStudentService.java:218-223 | An absent id gives StudentNotFound. Otherwise only that row is removed. |
| UserStudentService.BlankFieldRejected | backend/src/main/java/com/example/registration/service/UserStudentService.java:119-129 | A provided blank username, email or full name gives IllegalArgument and leaves the table unchanged. |
| UserStudentService.UpdateTouchesOnlyItsRow | backend/src/main/java/com/example/registration/service/UserStudentService.java:131-156 | An update keeps every other row and the updated row's id. |
| UserStudentService.ShortPasswordRejected | backend/src/main/java/com/example/registration/service/UserStudentService.java:149-152 | A non-blank password shorter than six characters after trimming is rejected and nothing is saved. |
| UserStudentService.UpdateKeepsRoles | backend/src/main/java/com/example/registration/service/UserStudentService.java:114-157 | The plain update never changes roles. |
| UserStudentService.ApplyRequest | backend/src/main/java/com/example/registration/service/UserStudentService.java:131-154 | The field-by-field setter sequence gives exactly Merge's result. |
| UserStudentService.Service.constructor | backend/src/main/java/com/example/registration/service/UserStudentService.java:30-34 | The service holds the given table, role rows and encoder. |
| UserStudentService.Service.UpdateStudentProfile | backend/src/main/java/com/example/registration/service/UserStudentService.java:68-111 | The new table and result are UpdateProfile's. |
| UserStudentService.Service.UpdateStudent | backend/src/main/java/com/example/registration/service/UserStudentService.java:114-157 | The new table and result are UpdateById's. |
| UserStudentService.Service.UpdateStudentWithRoles | backend/src/main/java/com/example/registration/service/UserStudentService.java:160-215 | The new table and result are UpdateWithRoles'. |
| UserStudentService.Service.DeleteStudent | backend/src/main/java/com/example/registration/service/UserStudentService.java:218-223 | The new table and result are DeleteById's. |
| UserStudentService.Service.Save | backend/src/main/java/com/example/registration/service/UserStudentService.java:156 | The new table and result are Commit's. |
| UserStudentController.AnyPrivileged | backend/src/main/java/com/example/registration/controller/UserStudentController.java:35-39 | The stream test holds exactly when some authority is ROLE_ADMIN or ROLE_MODERATOR. |
| UserStudentController.IsAdminOrModerator | backend/src/main/java/com/example/registration/controller/UserStudentController.java:35-39 | It holds exactly when ROLE_ADMIN or ROLE_MODERATOR is granted, by exact name. |
| UserStudentController.HasRole | backend/src/main/java/com/example/registration/controller/UserStudentController.java:168 | hasRole(X) holds exactly when ROLE_X is granted. |
| UserStudentController.AnyUserRole | backend/src/main/java/com/example/registration/controller/UserStudentController.java:85 | The gate of the profile endpoints: USER, MODERATOR or ADMIN. SearchGateIsPrivilege shows staff always pass it. |
| UserStudentController.SearchGateIsPrivilege | backend/src/main/java/com/example/registration/controller/UserStudentController.java:168 | The search endpoint's @PreAuthorize is the same test as isAdminOrModerator and implies the general gate. |
| UserStudentController.Reply | backend/src/main/java/com/example/registration/controller/UserStudentController.java:104-127 | A success is 200 with the row. A failure is the handler's response, and the table is the service's. |
| UserStudentController.Fail | backend/src/main/java/com/example/registration/controller/UserStudentController.java:62-186 | A failure response carries the handler's status and error body. |
| UserStudentController.DeleteReply | backend/src/main/java/com/example/registration/controller/UserStudentController.java:145-163 | A deletion keeps the table the service left. Success answers with the message and the id. Failure goes to the handler. |
| UserStudentController.GetAll | backend/src/main/java/com/example/registration/controller/UserStudentController.java:42-59 | Privileged callers get all students. Others get their own complete profile or an empty list, always with 200. |
| UserStudentController.GetAllOwnProfileOnly | backend/src/main/java/com/example/registration/controller/UserStudentController.java:48-57 | A non-privileged caller sees at most one row, their own, present exactly when their profile is complete. |
| UserStudentController.GetAllPrivileged | backend/src/main/java/com/example/registration/controller/UserStudentController.java:44-47 | A privileged caller sees exactly the complete profiles. |
| UserStudentController.GetById | backend/src/main/java/com/example/registration/controller/UserStudentController.java:62-81 | Privileged callers get any student. Others get their own or 403. |
| UserStudentController.PrivilegedUpdate | backend/src/main/java/com/example/registration/controller/UserStudentController.java:106-114 | It routes to updateStudentWithRoles exactly when roles are given and non-empty, else to updateStudent. |
| UserStudentController.Put | backend/src/main/java/com/example/registration/controller/UserStudentController.java:100-128 | A caller without a user role is refused with the table unchanged. A privileged caller is routed to the privileged update. Any other caller gets the not-found error when they have no profile, 403 with the table unchanged for another id, and otherwise the self-update of their own profile. |
| UserStudentController.PutProfile | backend/src/main/java/com/example/registration/controller/UserStudentController.java:130-137 | /profile is the self-update of the caller's own username. |
| UserStudentController.DeletedReply | backend/src/main/java/com/example/registration/controller/UserStudentController.java:162-163 | 200 with the message and deletedId the path id as a string. |
| UserStudentController.Delete | backend/src/main/java/com/example/registration/controller/UserStudentController.java:139-164 | Privileged callers delete any id. Others delete their own or get 403. |
| UserStudentController.Search | backend/src/main/java/com/example/registration/controller/UserStudentController.java:166-172 | Non-privileged callers are refused. Privileged ones get the service's search. |
| UserStudentController.Me | backend/src/main/java/com/example/registration/controller/UserStudentController.java:174-186 | The caller's own profile, or the handler's NotFound response. |
| UserStudentController.ForbiddenChangesNothing | backend/src/main/java/com/example/registration/controller/UserStudentController.java:62-164 | A non-privileged caller gets 403 on another user's id for GET, PUT and DELETE, and the table is unchanged. |
| UserStudentController.PutForbiddenOnlyForOthers | backend/src/main/java/com/example/registration/controller/UserStudentController.java:115-122 | A PUT 403 happens only to a non-privileged caller addressing another user. |
| UserStudentController.DeleteForbiddenOnlyForOthers | backend/src/main/java/com/example/registration/controller/UserStudentController.java:149-156 | A DELETE 403 happens only to a non-privileged caller addressing another user. |
| UserStudentController.GetByIdForbiddenOnlyForOthers | backend/src/main/java/com/example/registration/controller/UserStudentController.java:69-76 | A GET 403 happens only to a non-privileged caller addressing another user. |
| UserStudentController.EmptyRoleListKeepsRoles | backend/src/main/java/com/example/registration/controller/UserStudentController.java:108-113 | A PUT with an empty role list behaves exactly as one without roles, so the role-clearing branch is unreachable. |
| UserStudentController.PrivilegedRoleChanges | backend/src/main/java/com/example/registration/controller/UserStudentController.java:106-114 | A privileged update sets roles to the converted list when one is given and non-empty. Otherwise it keeps them. |
| UserStudentController.RolesChangeOnlyByList | backend/src/main/java/com/example/registration/controller/UserStudentController.java:106-125 | A PUT changes a user's roles only through a privileged non-empty role list. |
| UserStudentController.SelfUpdateKeepsRoles | backend/src/main/java/com/example/registration/controller/UserStudentController.java:116-136 | A non-privileged PUT, and PUT /profile, never touch roles. |
| UserStudentController.UnknownNamesStripRoles | backend/src/main/java/com/example/registration/controller/UserStudentController.java:108-110 | A privileged PUT whose role names are all unknown leaves the user with no roles. |
| UserStudentController.DeleteResponse | backend/src/main/java/com/example/registration/controller/UserStudentController.java:145-163 | A successful delete always carries deletedId equal to the path id, with a message that differs for privileged and self deletion. |
| GlobalExceptionHandler.ErrorMap | backend/src/main/java/com/example/registration/exception/GlobalExceptionHandler.java:100-108 | The base body has exactly timestamp, status, error, message and path, with the given values and path /api/students. |
| GlobalExceptionHandler.Extra | backend/src/main/java/com/example/registration/exception/GlobalExceptionHandler.java:35-64 | The extra keys are the kind's list key: errors, validationErrors, constraintErrors, or none. |
| GlobalExceptionHandler.Handle | backend/src/main/java/com/example/registration/exception/GlobalExceptionHandler.java:20-113 | Every error body has the five base keys, its status field equals the response status, and the path is /api/students. |
| GlobalExceptionHandler.StatusOf | backend/src/main/java/com/example/registration/exception/GlobalExceptionHandler.java:20-92 | Every status is between 400 and 500, and 500 is given exactly to the catch-all. |
| GlobalExceptionHandler.Title | backend/src/main/java/com/example/registration/exception/GlobalExceptionHandler.java:20-92 | The error title of each handler. |
| GlobalExceptionHandler.TitleDeterminesStatus | backend/src/main/java/com/example/registration/exception/GlobalExceptionHandler.java:20-92 | Two exceptions with the same title get the same status. |
| GlobalExceptionHandler.MessageOf | backend/src/main/java/com/example/registration/exception/GlobalExceptionHandler.java:20-92 | The catch-all shows the fixed general message, never the exception's own. |
| GlobalExceptionHandler.BodyKeys | backend/src/main/java/com/example/registration/exception/GlobalExceptionHandler.java:95-108 | The body keys are the base keys plus the kind's extra key and nothing else. |
| GlobalExceptionHandler.StatusTable | backend/src/main/java/com/example/registration/exception/GlobalExceptionHandler.java:20-92 | NotFound gives 404. Duplicate and DataIntegrity give 409. The invalid-data, bulk, validation, constraint, type-mismatch and illegal-argument kinds give 400. Everything else gives 500. |
| GlobalExceptionHandler.MessageShown | backend/src/main/java/com/example/registration/exception/GlobalExceptionHandler.java:20-92 | Which kinds show their own message, and the fixed messages of the validation kinds. |
| GlobalExceptionHandler.ValidationErrorsListed | backend/src/main/java/com/example/registration/exception/GlobalExceptionHandler.java:42-53 | validationErrors lists "field: defaultMessage" strings in field-error order. |
| GlobalExceptionHandler.ConstraintErrorsListed | backend/src/main/java/com/example/registration/exception/GlobalExceptionHandler.java:55-65 | constraintErrors lists "propertyPath: message" strings. |
| GlobalExceptionHandler.DataIntegrityMessage | backend/src/main/java/com/example/registration/exception/GlobalExceptionHandler.java:74-81 | The email-specific message is used exactly when the exception message contains "email". |
| GlobalExceptionHandler.GeneralHidesMessage | backend/src/main/java/com/example/registration/exception/GlobalExceptionHandler.java:88-92 | The catch-all response does not depend on the exception's own message. |
| UseProfileForm.Changed | frontend/src/hooks/useProfileForm.js:52-54 | The named field reads back the new value and every other field keeps its value. |
| UseProfileForm.ValuesDetermineForm | frontend/src/hooks/useProfileForm.js:52-54 | Two forms that agree on every field are the same form, so Changed fixes the whole new form. |
| UseProfileForm.Observe | frontend/src/hooks/useProfileForm.js:57-105 | The quantities the validator reads: trimmed lengths, the "@" test on the untrimmed email, password presence, confirmation and the future-date test. |
| UseProfileForm.FirstFailure | frontend/src/hooks/useProfileForm.js:57-107 | No failure is reported exactly when every bound holds. |
| UseProfileForm.ReportedCheckFails | frontend/src/hooks/useProfileForm.js:57-105 | The reported check does fail. |
| UseProfileForm.NoFailureSkipped | frontend/src/hooks/useProfileForm.js:57-105 | Any failing check is reported, or an earlier one is, in the source's order. |
| UseProfileForm.ValidateProfile | frontend/src/hooks/useProfileForm.js:57-107 | No check is reported exactly when every bound holds, and a reported check fails. |
| Dates.DayKey | frontend/src/hooks/useProfileForm.js:99-100 | A day key exists only for a YYYY-MM-DD text, and its month-day part is between 0101 and 1231. |
| Dates.IsAfter | frontend/src/hooks/useProfileForm.js:99-103 | The date is valid and its day comes after today; an invalid date is never after today. |
| UseProfileForm.ValidateProfileAccepts | frontend/src/hooks/useProfileForm.js:57-107 | validateForm returns true exactly for an acceptable form. |
| UseProfileForm.AcceptableIsBounded | frontend/src/hooks/useProfileForm.js:57-107 | An acceptable form meets every bound. |
| UseProfileForm.BoundedIsAcceptable | frontend/src/hooks/useProfileForm.js:57-107 | A form meeting every bound is acceptable. |
| UseProfileForm.BlankUsernameFirst | frontend/src/hooks/useProfileForm.js:58-60 | A blank username is reported before anything else. |
| UseProfileForm.AtTestIgnoresTrim | frontend/src/hooks/useProfileForm.js:76-81 | Trimming never changes whether "@" occurs, so the untrimmed test is harmless. |
| UseProfileForm.AtAloneAccepted | frontend/src/hooks/useProfileForm.js:73-81 | The email "@" passes the client check but has no email shape, so the client check does not imply @Email. |
| UseProfileForm.AcceptedWithoutPassword | frontend/src/hooks/useProfileForm.js:86-96 | Without a password the form is accepted on its other bounds alone. |
| UseProfileForm.BlankPasswordIgnored | frontend/src/hooks/useProfileForm.js:86-96 | A blank password and any confirmation give the same verdict as none. |
| UseProfileForm.PasswordUnread | frontend/src/hooks/useProfileForm.js:86-96 | Without a password, the password length and confirmation do not affect the verdict. |
| UseProfileForm.ConfirmationComparedUntrimmed | frontend/src/hooks/useProfileForm.js:87-95 | A confirmation equal to the trimmed password fails when the password has surrounding spaces. |
| UseProfileForm.ProfileData | frontend/src/hooks/useProfileForm.js:122-132 | The self-update body has the trimmed fields, the date as typed, and a trimmed password only when one is given. |
| UseProfileForm.AcceptedProfileBody | frontend/src/hooks/useProfileForm.js:114-132 | An accepted form sends a body within the client's bounds. |
| UseProfileForm.SavedUserData | frontend/src/hooks/useProfileForm.js:137-143 | The stored user update holds exactly the four profile fields and never the password. |
| UseProfileForm.SubmitError | frontend/src/hooks/useProfileForm.js:174-195 | 401 gives the session message. A 400 with a body gives its message or the body. 403 gives the permission text, other statuses "Server error: N", no response the backend text, and a setup error its message or the fallback. |
| UseProfileForm.StringBodyIsMessage | frontend/src/hooks/useProfileForm.js:182-183 | A plain-string 400 body is shown as the message. |
| UseProfileForm.LoadedDate | frontend/src/hooks/useProfileForm.js:22-31 | A loaded date is empty or a date-shaped day without a time part. |
| UseProfileForm.LoadedForm | frontend/src/hooks/useProfileForm.js:33-40 | Loading fills username, full name, email and date from the user and never pre-fills the password or confirmation. |
| UseProfileForm.Profile.constructor | frontend/src/hooks/useProfileForm.js:7-16 | The form starts blank, with nothing being edited and not loading. |
| UseProfileForm.Profile.ProfileEffect | frontend/src/hooks/useProfileForm.js:19-49 | The effect, which runs after mount and again whenever currentUser changes, loads the form from the current user only for a USER-only caller. It never fills in a password. |
| UseProfileForm.Profile.HandleChange | frontend/src/hooks/useProfileForm.js:52-54 | The form becomes Changed of the old form and nothing else changes. |
| UseProfileForm.Profile.SetEditingStudent | frontend/src/hooks/useProfileForm.js:222 | Only editingStudent changes. |
| UseProfileForm.Profile.HandleCancelEdit | frontend/src/hooks/useProfileForm.js:202-212 | The form is cleared and nothing is being edited. |
| UseProfileForm.Profile.Fail | frontend/src/hooks/useProfileForm.js:174-195 | It throws SubmitError's message, and it logs out exactly on 401. |
| UseProfileForm.Profile.SubmitOwn | frontend/src/hooks/useProfileForm.js:120-148 | On success it returns "Profile updated successfully!" and stores and sets the merged user. The password is cleared, and for a USER-only caller the re-run profile effect then reloads the whole form from the merged user. On failure it throws SubmitError's message and keeps the form. |
| UseProfileForm.Profile.SubmitStudent | frontend/src/hooks/useProfileForm.js:150-171 | It sends PUT /students/{id} while editingStudent is truthy, else POST. Success resets the form, clears a truthy editingStudent and refetches. It then returns the updated or added text, or the refetch's error. A failed request throws SubmitError's message and keeps the form. |
| UseProfileForm.Profile.Route | frontend/src/hooks/useProfileForm.js:116-198 | A USER-only caller always sends the profile PUT and gets SubmitOwn's result, merged user and reloaded form. Others get SubmitStudent's request, reset, list and texts. A failed request throws SubmitError's message, 401 logs out, and loading ends false. |
| UseProfileForm.Profile.HandleSubmit | frontend/src/hooks/useProfileForm.js:111-199 | A failing form throws its message with no request and loading unchanged. An accepted one gets Route's outcomes with the trimmed profile data: the success texts, the error mapping, the merged user and reloaded form, or the reset form and refetched list. It ends not loading. |
| UserManagement.TextHit | frontend/src/components/user/UserManagement.jsx:70-72 | value?.toLowerCase().includes(term): undefined or null is falsy, a non-string throws, and a string tests its lower case. |
| UserManagement.RolesHit | frontend/src/components/user/UserManagement.jsx:73 | For string roles, some role's lower case contains the term. |
| UserManagement.UserHit | frontend/src/components/user/UserManagement.jsx:70-73 | A null user throws. A non-object user has no hits. A username containing the term is a hit. |
| UserManagement.FilterHits | frontend/src/components/user/UserManagement.jsx:69-74 | It throws exactly when some user's test throws, a null user included. Otherwise it keeps the hits in order. |
| UserManagement.WellShapedHit | frontend/src/components/user/UserManagement.jsx:69-74 | A well-shaped user's test never throws and is the disjunction over the four properties. |
| UserManagement.SearchUsers | frontend/src/components/user/UserManagement.jsx:62-77 | An empty term gives all users. Otherwise the filter runs on the lower-cased term. |
| UserManagement.SearchWellShaped | frontend/src/components/user/UserManagement.jsx:62-77 | Over well-shaped users, the search keeps exactly those whose username, email, full name or a role contains the term. |
| UserManagement.RoleObjectThrows | frontend/src/components/user/UserManagement.jsx:73 | A role held as an object makes the search throw. |
| UserManagement.RoleValue | frontend/src/components/user/UserManagement.jsx:110-120 | A string stays. A truthy name becomes "ROLE_"+String(name). Otherwise a truthy authority is kept as it is, whatever its type, and anything else becomes String(role). Only a kept authority can be a non-string. |
| UserManagement.RoleShapesAgree | frontend/src/components/user/UserManagement.jsx:110-120 | The three role shapes for one role give the same name. |
| UserManagement.PrefixedNameDoubled | frontend/src/components/user/UserManagement.jsx:114-115 | A {name} that already has the prefix gets it twice. |
| UserManagement.FormRoles | frontend/src/components/user/UserManagement.jsx:107-122 | An array of roles is mapped element-wise. Anything else gives no roles. |
| UserManagement.DatePart | frontend/src/components/user/UserManagement.jsx:128-129 | The text before the first 'T'. |
| UserManagement.FormDate | frontend/src/components/user/UserManagement.jsx:128-129 | The date part of a truthy enrollmentDate, else of a truthy createdAt, else "". It throws exactly when the chosen value is not a string. A date part never contains 'T'. |
| UserManagement.FormFor | frontend/src/components/user/UserManagement.jsx:124-131 | It throws exactly for a null user or a throwing date. Otherwise the form takes the user's text fields, the form date and the normalised roles. |
| UserManagement.RoleToggled | frontend/src/components/user/UserManagement.jsx:144-152 | Checking appends the value. Unchecking removes every occurrence and keeps all other roles, including non-string ones. No other field changes. |
| UserManagement.CheckThenUncheck | frontend/src/components/user/UserManagement.jsx:144-152 | Checking and then unchecking a value is unchecking it. |
| UserManagement.EmailPatternExamples | frontend/src/components/user/UserManagement.jsx:177 | The hand-coded pattern accepts a@b.c and rejects a@b and a b@c.d. |
| UserManagement.EmailPatternHasShape | frontend/src/components/user/UserManagement.jsx:177 | A matching email has exactly one '@', neither first nor last. |
| UserManagement.EditMessage | frontend/src/components/user/UserManagement.jsx:158-222 | The message each failed check shows. |
| UserManagement.EditError | frontend/src/components/user/UserManagement.jsx:158-222 | No error is reported exactly when the edit is acceptable, checked in the source's order. |
| UserManagement.RequestFor | frontend/src/components/user/UserManagement.jsx:228-237 | The text fields are sent trimmed. The date and roles are sent as in the form. |
| UserManagement.AcceptedEditMeetsUserBounds | frontend/src/components/user/UserManagement.jsx:158-236 | An accepted edit sends a username, email and full name within the User entity's length bounds. |
| UserManagement.EntryTexts | frontend/src/components/user/UserManagement.jsx:272-274 | Each entry renders as "field: message". A null entry throws. |
| UserManagement.Message400 | frontend/src/components/user/UserManagement.jsx:269-286 | A 400 prefers validationErrors, then message, then a string body, then errors, then the generic text. |
| UserManagement.UpdateError | frontend/src/components/user/UserManagement.jsx:267-291 | 400 gives Message400, 403 and 404 give their text, and anything else gives "Failed to update user.". |
| UserManagement.StringEntriesShowUndefined | frontend/src/components/user/UserManagement.jsx:270-275 | Validation errors sent as strings render as "undefined: undefined" each. |
| UserManagement.UpdatedText | frontend/src/components/user/UserManagement.jsx:245 | The success banner names the edited user's username. |
| UserManagement.FetchError | frontend/src/components/user/UserManagement.jsx:40-46 | The permission text exactly for 403, the endpoint text exactly for 404, the generic text otherwise. |
| UserManagement.CountWith | frontend/src/components/user/UserManagement.jsx:551-570 | The count exists exactly when no user's test throws, and then it is the number of users that pass, at most the total. |
| UserManagement.RoleString | frontend/src/components/user/UserManagement.jsx:553 | A string stays, then a truthy name, then a truthy authority, then String(role). A non-string result only comes from an object role. |
| UserManagement.Passes | frontend/src/components/user/UserManagement.jsx:554 | includes throws exactly on a value that is neither a string nor an array. On a string it is the role test. |
| UserManagement.AnyPasses | frontend/src/components/user/UserManagement.jsx:552-555 | With no throwing role, some role passes. A throw comes from some role. |
| UserManagement.SomeRole | frontend/src/components/user/UserManagement.jsx:552-555 | A null user throws. Missing or null roles give false. Roles that are not an array throw. An array is tested role by role. |
| UserManagement.Stats | frontend/src/components/user/UserManagement.jsx:547-570 | The counts exist exactly when all three filters run without a throw. They are the ADMIN, MODERATOR and regular counts, and none exceeds the total. |
| UserManagement.StatsWellShaped | frontend/src/components/user/UserManagement.jsx:547-570 | Well-shaped users never make the statistics throw. |
| UserManagement.StatsThrows | frontend/src/components/user/UserManagement.jsx:551-570 | A numeric role name, a roles string and a null user each make the statistics throw. |
| UserManagement.AdminNameIsAdmin | frontend/src/components/user/UserManagement.jsx:551-570 | ROLE_ADMIN counts as admin only. |
| UserManagement.UserNameIsRegular | frontend/src/components/user/UserManagement.jsx:565-570 | ROLE_USER counts as regular only. |
| UserManagement.RegularAndAdminCountedTwice | frontend/src/components/user/UserManagement.jsx:551-570 | A user holding a regular and an admin role gives the counts (1, 0, 1): admin and regular. |
| UserManagement.UserAndAdminCountedTwice | frontend/src/components/user/UserManagement.jsx:551-570 | A user with ROLE_USER and ROLE_ADMIN gives the counts (1, 0, 1). |
| UserManagement.Management.constructor | frontend/src/components/user/UserManagement.jsx:6-19 | Every cell starts empty. |
| UserManagement.Management.FetchUsers | frontend/src/components/user/UserManagement.jsx:22-52 | A resolved response with no null user sets both lists and clears error, whatever the search term. Otherwise, a null user included, both lists are emptied and FetchError is shown. Loading ends false. |
| UserManagement.Management.HandleSearch | frontend/src/components/user/UserManagement.jsx:62-77 | The term is stored lower-cased. The list becomes the search result, or stays when the filter throws. |
| UserManagement.Management.HandleEditUser | frontend/src/components/user/UserManagement.jsx:104-132 | editingUser is set. The form becomes FormFor(user), or stays when FormFor throws, exactly then. |
| UserManagement.Management.HandleRoleChange | frontend/src/components/user/UserManagement.jsx:144-152 | The form becomes RoleToggled of the old form. |
| UserManagement.Management.HandleCancelEdit | frontend/src/components/user/UserManagement.jsx:300-309 | Editing stops and the form is cleared. |
| UserManagement.Management.ReportUpdate | frontend/src/components/user/UserManagement.jsx:243-296 | Success shows the updated text, clears the edit and refetches. Failure shows UpdateError. |
| UserManagement.Management.RejectEdit | frontend/src/components/user/UserManagement.jsx:158-222 | Only error changes. |
| UserManagement.Management.HandleUpdateUser | frontend/src/components/user/UserManagement.jsx:155-297 | A rejected edit sets EditError's message and sends nothing. An accepted one sends RequestFor and reports the outcome. |
| UserManagement.Management.SendEdit | frontend/src/components/user/UserManagement.jsx:224-296 | The body sent is RequestFor the form and the edited user, and loading ends false. |
| UseStudentManagement.SearchList | frontend/src/hooks/useStudentManagement.js:32-46 | An empty term gives all students. Otherwise the result is the order-preserving filter, with members exactly the matches. |
| UseStudentManagement.SearchIgnoresCase | frontend/src/hooks/useStudentManagement.js:33 | An upper-case term finds what its lower-case form finds. |
| UseStudentManagement.SearchById | frontend/src/hooks/useStudentManagement.js:39-43 | A student's own id finds that student. |
| UseStudentManagement.DeleteError | frontend/src/hooks/useStudentManagement.js:62-76 | 401, then 403, then 404, then the server message, then "Failed to delete student". |
| UseStudentManagement.StudentManagement.constructor | frontend/src/hooks/useStudentManagement.js:7-10 | Both lists start empty, not loading, with an empty term. |
| UseStudentManagement.StudentManagement.FetchStudents | frontend/src/hooks/useStudentManagement.js:13-29 | Both lists become the response, whatever the term, and the session is untouched. 401 logs out. Loading ends false. |
| UseStudentManagement.StudentManagement.HandleSearch | frontend/src/hooks/useStudentManagement.js:32-46 | The term is stored lower-cased and the list becomes SearchList of the full list. |
| UseStudentManagement.StudentManagement.HandleDelete | frontend/src/hooks/useStudentManagement.js:49-80 | Without confirmation nothing changes and nothing is returned. Success refetches before reporting and keeps the session. A failed refetch after a deletion throws DeleteFailed and keeps both lists; a 401 logs out, anything else keeps the session. A failed deletion maps the status. Loading ends false. |
| UserForm.KeyName | frontend/src/components/user/UserForm.jsx:4-11 | The input's property is "userName" and the validator's is "username". |
| UserForm.SpellingsDiffer | frontend/src/components/user/UserForm.jsx:32 | The two property names differ. |
| UserForm.Initial | frontend/src/components/user/UserForm.jsx:4-11 | Five empty text fields except today's date, and roles ["user"]. |
| UserForm.Changed | frontend/src/components/user/UserForm.jsx:13-19 | The named property takes the value, and the roles stay. |
| UserForm.RoleChanged | frontend/src/components/user/UserForm.jsx:21-29 | Checking appends the value. Unchecking removes it and keeps other roles. |
| UserForm.InitialReachable | frontend/src/components/user/UserForm.jsx:4-11 | The initial form has every input property and no "username". |
| UserForm.ChangeKeepsReachable | frontend/src/components/user/UserForm.jsx:13-29 | No input handler ever sets "username". |
| UserForm.ValidateAsWritten | frontend/src/components/user/UserForm.jsx:31-57 | Without a "username" property the validator throws. |
| UserForm.AsWrittenAlwaysThrows | frontend/src/components/user/UserForm.jsx:32 | On every reachable form the validator as written throws. |
| UserForm.InitialFormThrows | frontend/src/components/user/UserForm.jsx:4-11 | The untouched form already throws. |
| UserForm.ChecksPass | frontend/src/components/user/UserForm.jsx:31-57 | With the properties present, the checks pass exactly when all fields are filled, the password has at least six characters and a role is chosen. |
| UserForm.Validate | frontend/src/components/user/UserForm.jsx:31-57 | The corrected validator never throws on a reachable form and passes exactly on an acceptable one. |
| UserForm.InitialFormNeedsUsername | frontend/src/components/user/UserForm.jsx:32-35 | The untouched corrected form stops at the username check. |
| UserForm.ShortPasswordRefused | frontend/src/components/user/UserForm.jsx:40-43 | A password shorter than six characters never passes. |
| UserForm.SignupHeaders | frontend/src/components/user/UserForm.jsx:69-75 | JSON content type always. Authorization exactly when the stored user has a token. A stored null throws. |
| UserForm.SignupHeadersAgree | frontend/src/components/user/UserForm.jsx:71-74 | The hand-built header equals the shared getAuthHeader. |
| UserForm.SubmitMessage | frontend/src/components/user/UserForm.jsx:79-103 | Ok gives the created text. A failure gives the body text or "Failed to create user". A thrown fetch gives the backend text. |
| UserForm.AddUser.constructor | frontend/src/components/user/UserForm.jsx:4-11 | The form starts as Initial(today). |
| UserForm.AddUser.HandleChange | frontend/src/components/user/UserForm.jsx:13-19 | The form becomes Changed of the old form. |
| UserForm.AddUser.HandleRoleChange | frontend/src/components/user/UserForm.jsx:21-29 | The form becomes RoleChanged of the old form. |
| UserForm.AddUser.HandleSubmit | frontend/src/components/user/UserForm.jsx:59-104 | The handler with the corrected validator (Validate): a failing form reports its message and sends nothing, only an ok response resets the form and schedules onUserAdded, and other outcomes report SubmitMessage. The handler as written never gets past validateForm (AsWrittenAlwaysThrows). |
| RegisterForm.Changed | frontend/src/components/auth/RegisterForm.jsx:73-140 | The input shows the new value and no other input changes. |
| RegisterForm.Payload | frontend/src/components/auth/RegisterForm.jsx:31-38 | The role travels as the one-element list [formData.role]. The confirmation is not sent. |
| RegisterForm.UntouchedRoleIsDefault | frontend/src/components/auth/RegisterForm.jsx:12 | The default role sends what register sends with no roles. |
| RegisterForm.FailureText | frontend/src/components/auth/RegisterForm.jsx:42 | The server message when truthy, else "Registration failed". |
| RegisterForm.NoResponseShowsFallback | frontend/src/components/auth/RegisterForm.jsx:42 | No response, or a body without a message, shows the fallback. |
| RegisterForm.Register.constructor | frontend/src/components/auth/RegisterForm.jsx:5-16 | Empty fields, role "user", not loading, no banners. |
| RegisterForm.Register.HandleChange | frontend/src/components/auth/RegisterForm.jsx:73-140 | The form becomes Changed of the old form. |
| RegisterForm.Register.HandleSubmit | frontend/src/components/auth/RegisterForm.jsx:18-46 | Banners are cleared first. A mismatch reports and sends nothing. Otherwise the payload is sent, success schedules the return to login, and failure shows FailureText. Loading ends false. |
| UseAuth.RoleName | frontend/src/hooks/useAuth.js:33 | The ROLE_ prefix followed by the upper-cased role. |
| UseAuth.Includes | frontend/src/hooks/useAuth.js:33 | roles?.includes: undefined exactly for missing or null roles, a TypeError exactly for a number, boolean or object, true exactly for array membership or string containment. |
| UseAuth.HasRole | frontend/src/hooks/useAuth.js:32-35 | Undefined without a user. A TypeError exactly when the roles value has no includes. True exactly when the roles include "ROLE_"+upper(r). |
| UseAuth.HasRoleInList | frontend/src/hooks/useAuth.js:32-35 | For a list of names, hasRole is membership of the prefixed upper-case name. |
| UseAuth.HasRoleIgnoresCase | frontend/src/hooks/useAuth.js:33 | "admin" and "ADMIN" agree. |
| UseAuth.Spread | frontend/src/hooks/useAuth.js:48 | userData wins on its keys and the current user supplies the rest. |
| UseAuth.SpreadTwice | frontend/src/hooks/useAuth.js:47-51 | Merging the same data twice is merging it once. |
| UseAuth.SpreadKeepsRoles | frontend/src/hooks/useAuth.js:32-35 | Merging data without a roles key leaves the USER-only role test unchanged. |
| UseAuth.Auth.constructor | frontend/src/hooks/useAuth.js:5-16 | After mount, authenticated exactly when a stored user is truthy, with that user, in login mode. |
| UseAuth.Auth.HandleLogin | frontend/src/hooks/useAuth.js:18-23 | Authenticated with the stored user, even if none. |
| UseAuth.Auth.HandleLogout | frontend/src/hooks/useAuth.js:25-29 | The stored user is removed, and the session is not authenticated and has no user. |
| UseAuth.Auth.ToggleAuthMode | frontend/src/hooks/useAuth.js:38-40 | The mode flips and nothing else changes. |
| UseAuth.Auth.SetAuthMode | frontend/src/hooks/useAuth.js:42-44 | The mode becomes the argument. |
| UseAuth.Auth.UpdateCurrentUser | frontend/src/hooks/useAuth.js:47-51 | The merged user is stored under "user" and becomes the current user. |
| UseAuth.ToggleTwice | frontend/src/hooks/useAuth.js:38-40 | Toggling twice restores the mode. |
| AuthService.AuthHeader | frontend/src/services/AuthService.js:39-45 | {Authorization: "Bearer "+token} exactly when the stored user has a truthy token, else {}. |
| AuthService.Intercept | frontend/src/services/AuthService.js:49-56 | The header is set exactly when a token is present. Otherwise the config is untouched. |
| AuthService.RegisterPayload | frontend/src/services/AuthService.js:18-27 | The six keys with the given values. Roles default to ["user"] and travel under "role". |
| AuthService.RegisterDefaultRole | frontend/src/services/AuthService.js:18 | Omitted roles send ["user"]. |
| AuthService.Storage.CurrentUser | frontend/src/services/AuthService.js:33-37 | The stored value exactly when the key is present, else null. |
| AuthService.Storage.GetAuthHeader | frontend/src/services/AuthService.js:39-45 | A bearer header exactly when a user is stored and carries a truthy token; no other header. |
| AuthService.Storage.Login | frontend/src/services/AuthService.js:7-16 | The response is stored exactly when it carries a truthy token, and is returned either way. A null body throws and stores nothing. |
| AuthService.Storage.Logout | frontend/src/services/AuthService.js:29-31 | Only the "user" key is removed, so getCurrentUser then gives null. |
| AuthService.Storage.SetUser | frontend/src/hooks/useAuth.js:49 | The value is stored under "user". |
| UseMessages.Messages.constructor | frontend/src/hooks/useMessages.js:4-5 | Both banners start empty. |
| UseMessages.Messages.ShowSuccess | frontend/src/hooks/useMessages.js:7-12 | success becomes the message, error is cleared, and at most one banner shows. |
| UseMessages.Messages.ShowError | frontend/src/hooks/useMessages.js:14-17 | error becomes the message, success is cleared, and at most one banner shows. |
| UseMessages.Messages.ClearError | frontend/src/hooks/useMessages.js:19-21 | error is cleared and success is unchanged. |
| UseMessages.Messages.ClearSuccess | frontend/src/hooks/useMessages.js:23-25 | success is cleared and error is unchanged. |
| UseMessages.Messages.ClearAll | frontend/src/hooks/useMessages.js:27-30 | Both are cleared. |
| AuthenticatedApp.InterfaceFor | frontend/src/components/AuthenticatedApp.jsx:84-110 | The profile section renders exactly for USER without MODERATOR or ADMIN. Everything else renders the dashboard. |
| AuthenticatedApp.NoRoleGetsDashboard | frontend/src/components/AuthenticatedApp.jsx:84 | No roles, or no user, renders the dashboard. |
| AuthenticatedApp.FetchOnMount | frontend/src/components/AuthenticatedApp.jsx:38-39 | The mount test; FetchOnMountIsPrivilege shows it is the ADMIN-or-MODERATOR test of hasRole. |
| AuthenticatedApp.FetchOnMountIsPrivilege | frontend/src/components/AuthenticatedApp.jsx:38-39 | The mount fetch happens exactly when hasRole gives ADMIN or MODERATOR. |
| AuthenticatedApp.FetchersSeeDashboard | frontend/src/components/AuthenticatedApp.jsx:38-49 | A caller that triggers the fetch never sees the profile section. |
| AuthenticatedApp.Shell.constructor | frontend/src/components/AuthenticatedApp.jsx:16-35 | The shell is wired: the profile hook refetches through the same student hook. |
| AuthenticatedApp.Shell.Loading | frontend/src/components/AuthenticatedApp.jsx:72 | The combined flag is set exactly when the student hook or the profile hook is loading. |
| AuthenticatedApp.Shell.LoadStudents | frontend/src/components/AuthenticatedApp.jsx:38-49 | Without the privilege nothing is fetched. A fetch ends the student loading flag, so the combined flag is clear unless the form is saving; it sets the list or shows SessionExpired or FetchFailed. |
| AuthenticatedApp.Shell.HandleFormSubmit | frontend/src/components/AuthenticatedApp.jsx:54-61 | A refused form shows its message and keeps the flag. An accepted form ends the form loading and never starts the student one, so the combined flag is clear when no fetch was running. The banners are Report of the outcome. For an accepted form, a failed request shows SubmitError's message. A USER-only caller's success shows "Profile updated successfully!" with the reloaded form, and another caller's shows the updated or added text with the reset form and refetched list, or else the refetch's error. |
| AuthenticatedApp.Shell.HandleStudentDelete | frontend/src/components/AuthenticatedApp.jsx:63-72 | A confirmed delete ends the student loading, so the combined flag is clear unless the form is saving. A cancelled one changes no list and no flag. The banners are Report of the outcome. For an accepted form, a failed request shows SubmitError's message. A USER-only caller's success shows "Profile updated successfully!" with the reloaded form, and another caller's shows the updated or added text with the reset form and refetched list, or else the refetch's error. |
| AuthenticatedApp.Report | frontend/src/components/AuthenticatedApp.jsx:54-70 | A returned value goes to showSuccess and an error's message to showError. |
| AuthenticatedApp.ReportCancelledDelete | frontend/src/components/AuthenticatedApp.jsx:63-70 | A cancelled delete shows no banner and clears the error. |
| AdminDashboard.Tabs | frontend/src/components/admin/AdminDashboard.jsx:31-62 | The two first tabs always. The management tab exactly when hasRole('ADMIN'). |
| AdminDashboard.Content | frontend/src/components/admin/AdminDashboard.jsx:68-91 | UserList for 'userlist', UserForm for 'adduser', and UserManagement for every other value. That component shows access denied to a non-admin. |
| AdminDashboard.Dashboard.constructor | frontend/src/components/admin/AdminDashboard.jsx:19 | The initial tab is 'userlist'. |
| AdminDashboard.Dashboard.Select | frontend/src/components/admin/AdminDashboard.jsx:32-53 | The clicked tab becomes active. |
| AdminDashboard.Dashboard.HandleUserAdded | frontend/src/components/admin/AdminDashboard.jsx:22-24 | The tab becomes 'users', whoever the caller is. |
| AdminDashboard.ModeratorAddsUser | frontend/src/components/admin/AdminDashboard.jsx:22-91 | A moderator who adds a user lands on a tab without a button that shows only access denied. |
| App.Render | frontend/src/App.jsx:41-63 | Login form when unauthenticated in login mode, registration form when unauthenticated otherwise, and the application when authenticated. |
| App.ToggleFromLogin | frontend/src/App.jsx:45 | The mode becomes false, which shows the registration form. |
| App.BackToLogin | frontend/src/App.jsx:49-50 | Both registration callbacks set the mode true, back to the login form. |
| App.LoginError | frontend/src/components/auth/LoginForm.jsx:18 | The server message when truthy, else "Login failed". |
| App.BothInterceptorsAgree | frontend/src/App.jsx:13-24 | Passing through both interceptors is passing through one, with the same header as getAuthHeader. |

## Left out

- **The network and HTTP transport.** Each request's outcome is a parameter: the back-end reply or the client's `HttpOutcome`. Spring's request binding and JSON (de)serialisation are not modelled. Stored and sent values are JSON values, and `JSON.stringify` and `JSON.parse` are taken to round-trip.
- **JPA persistence.** Persistence is a map per table. `@Transactional` rollback is "the table is unchanged on an exception". The flush-time Bean Validation of `@NotBlank`, `@Size`, `@Email` and `@PastOrPresent` does not run on saves. The constraints are stated as `StudentModel.ValidStudent` and `UserModel.ValidUser`, and the only use of `ValidUser` is to relate it to the client's edit validator.
- **Saving a student that carries an id.** `save` and `saveAll` follow Spring Data's `SimpleJpaRepository`. An entity with a null id is inserted under the next IDENTITY value. An entity whose id names a stored row is merged over that row. An entity whose id names no stored row is modelled as inserted under the next IDENTITY value, which is what Hibernate's merge did before version 6.6; later versions throw instead. `saveAll` is modelled as one `save` per entity, in order, inside the one transaction.
- **IDENTITY values of rolled-back inserts.** A database consumes the identity value of an insert that fails or is rolled back. The model leaves the counter unchanged on a failed `addStudent` or `addStudents`, so ids after a failure may differ from the database's by such gaps.
- **The @PreUpdate and @PrePersist hooks.** They are modelled on the entity (`UserModel.User.OnCreate`, `UserModel.User.OnUpdate`). Their firing during the service's saves is not modelled, so saved rows keep their old timestamps in the model.
- **Database constraint messages.** The data-integrity message of a unique-constraint clash is the name of the clashing column. The real driver message is not known.
- **Dates and clocks.** There is no parsing of `new Date(...)`, `LocalDate.parse`, time zones or `setHours`. The UTC-parse against local-midnight difference between the two client validators is not modelled. Day keys are compared as integers, "today" is a parameter, `Dates.DayKey` accepts months 1–12 and days 1–31 without a per-month check, and the `now` timestamp of error bodies is a parameter.
- **Timers.** There are no timers: the `setTimeout` message clearing and the delayed tab and mode switches are reported as scheduled or not.
- **Strings.** Case mapping is ASCII only, with no Unicode folding. The email regex is a hand-coded predicate, and `@Email` is approximated by `StudentModel.EmailShape`.
- **Query wildcards.** `LIKE` patterns assume the keyword has no `%` or `_` wildcards.
- **Result order.** Unsorted `findAll()` and queries without `ORDER BY` are given ascending id order. The database guarantees no order.
- **StudentService extras.** `completeStudentProfile` (`UserStudentController.java:84-98`, `UserStudentService.java:226-234`) and the paginated `getAllStudents` are not part of this model. Neither are the other `StudentService` queries (`getStudentById`, `getStudentByEmail`, `searchByName` and the counts by date): they are plain repository lookups, and the repository queries they call are modelled in `StudentRepository`.
- **StudentController.java.** It only delegates and sets up Spring paging.
- **Presentation components and other files.** These are not modelled: LoginForm.jsx apart from its error text, the list and profile presentation components, the debug panels and the test files.
- **Exception bodies.** `model/ERole.java`, `Role.java` and the exception classes are not part of this model. They appear only as the datatypes `Roles.ERole` and `Exceptions.Exception`.
- **UserManagement's handleDeleteUser and handleFormChange.** `UserManagement.jsx:80-101` and `:135-141` are not modelled. They follow the same patterns as `UseStudentManagement.StudentManagement.HandleDelete` and `UserManagement.RoleToggled`.
- **TypeErrors in the client.** A JavaScript TypeError is modelled as a `None`, `Throws` or `TypeError` result in these places: the user search (`UserManagement.UserHit`, `FilterHits`), the statistics (`UserManagement.SomeRole`, `CountWith`, `Stats`), the edit form (`UserManagement.FormDate`, `FormFor`), the error texts (`UserManagement.EntryTexts`, `Message400`), the as-written add-user validator (`UserForm.ValidateAsWritten`) and `roles?.includes` (`UseAuth.Includes`, `UseAuth.HasRole`). The exceptions to this are on the lines below. `UserManagement.Management.HandleUpdateUser` and `SendEdit` require an edited user, since the edit form is displayed only while one is set. `UseProfileForm.SubmitError` and `Profile.Fail` require a failed outcome, since they run only in the `catch` block. Values the back end types (student rows, form strings) cannot cause a TypeError and are not given an error path.
- UserManagement.FormFor: a truthy username, email or full name that is not a string becomes "" in the form (`TextOr`). The source keeps it as it is, and the later `.trim()` of the update validator then throws.
- AuthenticatedApp.InterfaceFor: a roles value for which hasRole is a TypeError (a number, boolean or object) counts as not holding the role, so the dashboard is chosen. The source's render throws instead.
- AuthenticatedApp.FetchOnMount: the same roles values count as not privileged and nothing is fetched. The source's effect throws instead.
- UseProfileForm.Profile.ProfileEffect: the same roles values count as not a plain USER and no profile is loaded. The source's effect throws instead.
- UseProfileForm.Profile.Route: the same roles values route an accepted form to the student save. The source's submit throws, and the throw is reported as a failure.
- **Unmatched onChange names.** `UseProfileForm.Profile.SetEditingStudent` is exposed by the hook but has no caller in the core, and the form's `onChange` names are taken to be the six form keys.
- **RegisterForm's onRegister.** The prop is never called by RegisterForm, so `App.BackToLogin` models both callbacks by the one that is.
- **Null role names.** A null entry in a role list is not representable; role names are strings.

## Findings

| source | as written | input that shows it | evidently intended | confidence | as-written member | corrected member |
|---|---|---|---|---|---|---|
| frontend/src/components/user/UserForm.jsx:32 | `validateForm` reads `form.username`, but the form state and the input use `userName` (`:6`, `:131-134`), so `form.username` is always undefined and `.trim()` throws a TypeError. | The untouched initial form, or any form after typing into every input. | The username check reads `form.userName`, so that a filled form can be submitted. | not executed | UserForm.AsWrittenAlwaysThrows | UserForm.Validate |
