/**
 * The Student entity: the normalising setters, the constructor that
 * bypasses them, identity by id, and the declared field constraints.
 */
module StudentModel {
  import opened Wrappers
  import opened Text

  /** A stored row of the student table. */
  datatype StudentRow = StudentRow(name: string, email: string, enrollmentDate: int)

  /** What setEmail stores: the trimmed, lower-cased address. */
  function NormaliseEmail(e: string): (r: string)
    ensures IsTrimmed(Java, r)
    ensures Lower(r) == r
    ensures |r| <= |e|
  {
    var t := Trim(Java, e);
    TrimIdempotent(Java, e);
    LowerTrimCommute(Java, t);
    TrimIsTrimmed(Java, Lower(t));
    LowerIdempotent(t);
    Lower(t)
  }

  /** Storing an email that setEmail already stored leaves it unchanged. */
  lemma NormaliseEmailIdempotent(e: string)
    ensures NormaliseEmail(NormaliseEmail(e)) == NormaliseEmail(e)
  {
    var n := NormaliseEmail(e);
    TrimOfTrimmed(Java, n);
  }

  class Student {
    var id: Option<int>
    var name: Option<string>
    var email: Option<string>
    var enrollmentDate: Option<int>

    /** The no-argument constructor Jackson and JPA use. */
    constructor Empty()
      ensures id == None && name == None && email == None && enrollmentDate == None
    {
      id := None;
      name := None;
      email := None;
      enrollmentDate := None;
    }

    /** new Student(name, email, enrollmentDate): assigns the fields as given, without normalising. */
    constructor (name: Option<string>, email: Option<string>, enrollmentDate: Option<int>)
      ensures this.id == None && this.name == name && this.email == email && this.enrollmentDate == enrollmentDate
    {
      this.id := None;
      this.name := name;
      this.email := email;
      this.enrollmentDate := enrollmentDate;
    }

    /** A managed entity loaded from a stored row. */
    constructor Load(id: int, row: StudentRow)
      ensures this.id == Some(id) && name == Some(row.name) && email == Some(row.email)
      ensures enrollmentDate == Some(row.enrollmentDate)
    {
      this.id := Some(id);
      name := Some(row.name);
      email := Some(row.email);
      enrollmentDate := Some(row.enrollmentDate);
    }

    method SetId(id: Option<int>)
      modifies this
      ensures this.id == id
      ensures name == old(name) && email == old(email) && enrollmentDate == old(enrollmentDate)
    {
      this.id := id;
    }

    /** setName: stores the trimmed name; null stays null. */
    method SetName(name: Option<string>)
      modifies this
      ensures name.None? ==> this.name == None
      ensures name.Some? ==> this.name == Some(Trim(Java, name.value))
      ensures id == old(id) && email == old(email) && enrollmentDate == old(enrollmentDate)
    {
      this.name := if name.Some? then Some(Trim(Java, name.value)) else None;
    }

    /** setEmail: stores the trimmed, lower-cased email; null stays null. */
    method SetEmail(email: Option<string>)
      modifies this
      ensures email.None? ==> this.email == None
      ensures email.Some? ==> this.email == Some(NormaliseEmail(email.value))
      ensures id == old(id) && name == old(name) && enrollmentDate == old(enrollmentDate)
    {
      this.email := if email.Some? then Some(NormaliseEmail(email.value)) else None;
    }

    method SetEnrollmentDate(enrollmentDate: Option<int>)
      modifies this
      ensures this.enrollmentDate == enrollmentDate
      ensures id == old(id) && name == old(name) && email == old(email)
    {
      this.enrollmentDate := enrollmentDate;
    }

    /** equals: the same object, or another Student whose id is set and equal to this one's. */
    predicate Equals(o: Student?)
      reads this, o
    {
      o == this || (o != null && id.Some? && id == o.id)
    }

    /** hashCode: the class's hash, the same for every Student. */
    function HashCode(): int {
      ClassHash
    }
  }

  const ClassHash: int := 0

  /** equals is an equivalence relation (on objects that are not changed in between). */
  lemma EqualsIsEquivalence(a: Student, b: Student, c: Student)
    ensures a.Equals(a)
    ensures a.Equals(b) <==> b.Equals(a)
    ensures a.Equals(b) && b.Equals(c) ==> a.Equals(c)
  {
  }

  /** Two distinct unsaved students (id null) are never equal, whatever their fields hold. */
  lemma UnsavedDistinct(a: Student, b: Student)
    requires a != b && a.id.None?
    ensures !a.Equals(b) && !b.Equals(a)
  {
  }

  /** hashCode agrees with equals: equal students have equal hash codes. */
  lemma HashConsistent(a: Student, b: Student)
    ensures a.Equals(b) ==> a.HashCode() == b.HashCode()
  {
  }

  /**
   * The field constraints: name not blank and 2 to 100 characters, email not
   * blank, at most 150 characters and of email shape, enrollment date present
   * and not after today.
   */
  predicate ValidStudent(row: StudentRow, today: int) {
    !IsBlank(Java, row.name) && 2 <= |row.name| <= 100
    && !IsBlank(Java, row.email) && |row.email| <= 150 && EmailShape(row.email)
    && row.enrollmentDate <= today
  }

  /**
   * A necessary condition of @Email: one '@' with something before it and
   * something after it. The full Hibernate pattern is not modelled.
   */
  predicate EmailShape(e: string) {
    exists i :: 0 < i < |e| - 1 && e[i] == '@' && '@' !in e[..i] && '@' !in e[i + 1..]
  }

  /** The email column is unique across stored students. */
  predicate UniqueEmails(store: map<int, StudentRow>) {
    forall i, j :: i in store && j in store && store[i].email == store[j].email ==> i == j
  }
}
