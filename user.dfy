/**
 * The User entity: account fields, the student profile fields, roles and
 * the audit timestamps set by the JPA lifecycle hooks. Times are abstract
 * integers supplied by the caller.
 */
module UserModel {
  import opened Wrappers
  import opened Text
  import opened Roles
  import opened StudentModel

  /** A stored row of the users table. The profile fields may be unset, as the service treats them. */
  datatype UserRow = UserRow(
    id: int,
    username: string,
    email: string,
    password: string,
    fullName: Option<string>,
    enrollmentDate: Option<int>,
    roles: set<ERole>,
    createdAt: Option<int>,
    updatedAt: Option<int>,
    lastLogin: Option<int>,
    isActive: Option<bool>)

  class User {
    var id: Option<int>
    var username: Option<string>
    var email: Option<string>
    var password: Option<string>
    var fullName: Option<string>
    var enrollmentDate: Option<int>
    var roles: set<ERole>
    var createdAt: Option<int>
    var updatedAt: Option<int>
    var lastLogin: Option<int>
    var isActive: Option<bool>

    /** The no-argument constructor: only the field initialisers run. */
    constructor Empty()
      ensures id == None && username == None && email == None && password == None
      ensures fullName == None && enrollmentDate == None
      ensures roles == {} && isActive == Some(true)
      ensures createdAt == None && updatedAt == None && lastLogin == None
    {
      id := None;
      username := None;
      email := None;
      password := None;
      fullName := None;
      enrollmentDate := None;
      roles := {};
      createdAt := None;
      updatedAt := None;
      lastLogin := None;
      isActive := Some(true);
    }

    /** new User(username, email, password): the profile fields stay unset. */
    constructor WithCredentials(username: string, email: string, password: string)
      ensures id == None && this.username == Some(username) && this.email == Some(email) && this.password == Some(password)
      ensures fullName == None && enrollmentDate == None
      ensures roles == {} && isActive == Some(true)
      ensures createdAt == None && updatedAt == None && lastLogin == None
    {
      id := None;
      this.username := Some(username);
      this.email := Some(email);
      this.password := Some(password);
      fullName := None;
      enrollmentDate := None;
      roles := {};
      createdAt := None;
      updatedAt := None;
      lastLogin := None;
      isActive := Some(true);
    }

    /** new User(username, email, password, fullName, enrollmentDate). */
    constructor WithProfile(username: string, email: string, password: string, fullName: string, enrollmentDate: int)
      ensures id == None && this.username == Some(username) && this.email == Some(email) && this.password == Some(password)
      ensures this.fullName == Some(fullName) && this.enrollmentDate == Some(enrollmentDate)
      ensures roles == {} && isActive == Some(true)
      ensures createdAt == None && updatedAt == None && lastLogin == None
    {
      id := None;
      this.username := Some(username);
      this.email := Some(email);
      this.password := Some(password);
      this.fullName := Some(fullName);
      this.enrollmentDate := Some(enrollmentDate);
      roles := {};
      createdAt := None;
      updatedAt := None;
      lastLogin := None;
      isActive := Some(true);
    }

    /** A managed entity loaded from a stored row. */
    constructor Load(row: UserRow)
      ensures Stored() && Row() == row
    {
      id := Some(row.id);
      username := Some(row.username);
      email := Some(row.email);
      password := Some(row.password);
      fullName := row.fullName;
      enrollmentDate := row.enrollmentDate;
      roles := row.roles;
      createdAt := row.createdAt;
      updatedAt := row.updatedAt;
      lastLogin := row.lastLogin;
      isActive := row.isActive;
    }

    predicate Stored()
      reads this
    {
      id.Some? && username.Some? && email.Some? && password.Some?
    }

    /** The row that save writes. */
    function Row(): UserRow
      reads this
      requires Stored()
    {
      UserRow(id.value, username.value, email.value, password.value, fullName, enrollmentDate,
              roles, createdAt, updatedAt, lastLogin, isActive)
    }

    /** @PrePersist onCreate: both timestamps become the current time. */
    method OnCreate(now: int)
      modifies this
      ensures createdAt == Some(now) && updatedAt == Some(now)
      ensures id == old(id) && username == old(username) && email == old(email) && password == old(password)
      ensures fullName == old(fullName) && enrollmentDate == old(enrollmentDate) && roles == old(roles)
      ensures lastLogin == old(lastLogin) && isActive == old(isActive)
    {
      createdAt := Some(now);
      updatedAt := Some(now);
    }

    /** @PreUpdate onUpdate: only updatedAt changes. */
    method OnUpdate(now: int)
      modifies this
      ensures updatedAt == Some(now)
      ensures id == old(id) && username == old(username) && email == old(email) && password == old(password)
      ensures fullName == old(fullName) && enrollmentDate == old(enrollmentDate) && roles == old(roles)
      ensures createdAt == old(createdAt) && lastLogin == old(lastLogin) && isActive == old(isActive)
    {
      updatedAt := Some(now);
    }

    method SetUsername(v: string)
      modifies this
      ensures username == Some(v)
      ensures old(Stored()) ==> Stored() && Row() == old(Row()).(username := v)
    {
      username := Some(v);
    }

    method SetEmail(v: string)
      modifies this
      ensures email == Some(v)
      ensures old(Stored()) ==> Stored() && Row() == old(Row()).(email := v)
    {
      email := Some(v);
    }

    method SetPassword(v: string)
      modifies this
      ensures password == Some(v)
      ensures old(Stored()) ==> Stored() && Row() == old(Row()).(password := v)
    {
      password := Some(v);
    }

    method SetFullName(v: string)
      modifies this
      ensures fullName == Some(v)
      ensures old(Stored()) ==> Stored() && Row() == old(Row()).(fullName := Some(v))
    {
      fullName := Some(v);
    }

    method SetEnrollmentDate(v: int)
      modifies this
      ensures enrollmentDate == Some(v)
      ensures old(Stored()) ==> Stored() && Row() == old(Row()).(enrollmentDate := Some(v))
    {
      enrollmentDate := Some(v);
    }

    method SetRoles(v: set<ERole>)
      modifies this
      ensures roles == v
      ensures old(Stored()) ==> Stored() && Row() == old(Row()).(roles := v)
    {
      roles := v;
    }
  }

  /**
   * The field constraints: username not blank and at most 20 characters,
   * email not blank, at most 50 characters and of email shape, password not
   * blank and at most 120 characters, full name not blank and 2 to 100
   * characters, enrollment date present and not after today.
   */
  predicate ValidUser(u: UserRow, today: int) {
    !IsBlank(Java, u.username) && |u.username| <= 20
    && !IsBlank(Java, u.email) && |u.email| <= 50 && EmailShape(u.email)
    && !IsBlank(Java, u.password) && |u.password| <= 120
    && u.fullName.Some? && !IsBlank(Java, u.fullName.value) && 2 <= |u.fullName.value| <= 100
    && u.enrollmentDate.Some? && u.enrollmentDate.value <= today
  }

  type Users = map<int, UserRow>

  /** Each stored row sits under its own id. */
  predicate KeyedById(users: Users) {
    forall id :: id in users ==> users[id].id == id
  }

  /** The unique constraints of the users table. */
  predicate UniqueUsernames(users: Users) {
    forall i, j :: i in users && j in users && users[i].username == users[j].username ==> i == j
  }

  predicate UniqueUserEmails(users: Users) {
    forall i, j :: i in users && j in users && users[i].email == users[j].email ==> i == j
  }

  predicate WellFormed(users: Users) {
    KeyedById(users) && UniqueUsernames(users) && UniqueUserEmails(users)
  }
}
