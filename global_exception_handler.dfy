/**
 * GlobalExceptionHandler: every exception that leaves a controller becomes
 * an HTTP status and a JSON error body with the keys timestamp, status,
 * error, message and path, plus one list for the bulk, validation and
 * constraint kinds. The clock reading is a parameter.
 */
module GlobalExceptionHandler {
  import opened Text
  import opened JsValues
  import opened Exceptions

  /** getCurrentPath: the same path whatever the request was. */
  const Path: string := "/api/students"

  /** The keys an error body can carry. */
  datatype Key = Timestamp | StatusKey | ErrorKey | MessageKey | PathKey | Errors | ValidationErrors | ConstraintErrors

  /** The JSON name of each key. */
  function KeyName(k: Key): string {
    match k
    case Timestamp => "timestamp"
    case StatusKey => "status"
    case ErrorKey => "error"
    case MessageKey => "message"
    case PathKey => "path"
    case Errors => "errors"
    case ValidationErrors => "validationErrors"
    case ConstraintErrors => "constraintErrors"
  }

  /** Distinct keys have distinct JSON names, so a body keyed by Key is a JSON object with as many members. */
  lemma KeyNamesDistinct(k1: Key, k2: Key)
    ensures KeyName(k1) == KeyName(k2) ==> k1 == k2
  {
  }

  const BaseKeys: set<Key> := {Timestamp, StatusKey, ErrorKey, MessageKey, PathKey}

  datatype ErrorResponse = ErrorResponse(status: int, body: map<Key, Json>)

  /** createErrorMap. */
  function ErrorMap(status: int, error: string, message: string, now: string): (r: map<Key, Json>)
    ensures r.Keys == BaseKeys
    ensures r[StatusKey] == JNum(status) && r[PathKey] == JStr(Path) && r[Timestamp] == JStr(now)
    ensures r[ErrorKey] == JStr(error) && r[MessageKey] == JStr(message)
  {
    map[Timestamp := JStr(now), StatusKey := JNum(status), ErrorKey := JStr(error),
        MessageKey := JStr(message), PathKey := JStr(Path)]
  }

  const DataIntegrityDefault: string :=
    "Database constraint violation. This might be due to duplicate data or invalid references."
  const DataIntegrityEmail: string := "A student with this email address already exists."
  const GeneralMessage: string := "An unexpected error occurred. Please try again later."

  function StringList(items: seq<string>): (r: Json)
    ensures r.JArr? && |r.items| == |items|
    ensures forall k :: 0 <= k < |items| ==> r.items[k] == JStr(items[k])
  {
    JArr(seq(|items|, k requires 0 <= k < |items| => JStr(items[k])))
  }

  /** The "field: defaultMessage" strings of handleValidation, in field-error order. */
  function FieldErrorStrings(errors: seq<FieldError>): (r: seq<string>)
    ensures |r| == |errors|
    ensures forall k :: 0 <= k < |errors| ==> r[k] == errors[k].field + ": " + errors[k].defaultMessage
  {
    seq(|errors|, k requires 0 <= k < |errors| => errors[k].field + ": " + errors[k].defaultMessage)
  }

  /** The "propertyPath: message" strings of handleConstraintViolation. */
  function ViolationStrings(violations: seq<Violation>): (r: seq<string>)
    ensures |r| == |violations|
    ensures forall k :: 0 <= k < |violations| ==> r[k] == violations[k].propertyPath + ": " + violations[k].message
  {
    seq(|violations|, k requires 0 <= k < |violations| => violations[k].propertyPath + ": " + violations[k].message)
  }

  /** The keys a handler adds beyond the common five. */
  function ExtraKeys(ex: Exception): set<Key> {
    match ex
    case BulkOperation(_, _) => {Errors}
    case MethodArgumentNotValid(_) => {ValidationErrors}
    case ConstraintViolation(_) => {ConstraintErrors}
    case _ => {}
  }

  /** handleTypeMismatch's message: the rejected value, the parameter name and the required type. */
  function TypeMismatchMessage(value: string, name: string, requiredType: string): string {
    "Invalid value '" + value + "' for parameter '" + name + "'. Expected type: " + requiredType
  }

  /** handleDataIntegrityViolation's message: the email text when the database message mentions "email". */
  function DataIntegrityText(m: string): string {
    if Contains(m, "email") then DataIntegrityEmail else DataIntegrityDefault
  }

  /** The HTTP status of the handler Spring selects for the exception. */
  function StatusOf(ex: Exception): (r: int)
    ensures 400 <= r <= 500 && (r == 500 <==> ex.Other?)
  {
    match ex
    case StudentNotFound(_) => 404
    case DuplicateStudent(_) => 409
    case DataIntegrityViolation(_) => 409
    case Other(_) => 500
    case _ => 400
  }

  /** The "error" text of the selected handler. */
  function Title(ex: Exception): string {
    match ex
    case StudentNotFound(_) => "Student Not Found"
    case DuplicateStudent(_) => "Duplicate Student"
    case InvalidStudentData(_) => "Invalid Student Data"
    case BulkOperation(_, _) => "Bulk Operation Failed"
    case MethodArgumentNotValid(_) => "Validation Failed"
    case ConstraintViolation(_) => "Constraint Violation"
    case TypeMismatch(_, _, _) => "Type Mismatch"
    case DataIntegrityViolation(_) => "Data Integrity Error"
    case IllegalArgument(_) => "Invalid Argument"
    case Other(_) => "Internal Server Error"
  }

  /** The error titles name the handler: two exceptions with the same title get the same status. */
  lemma TitleDeterminesStatus(a: Exception, b: Exception)
    ensures Title(a) == Title(b) ==> StatusOf(a) == StatusOf(b)
  {
    if Title(a) == Title(b) {
      assert |Title(a)| == |Title(b)|;
    }
  }

  /** The "message" text of the selected handler. */
  function MessageOf(ex: Exception): (r: string)
    ensures ex.Other? ==> r == GeneralMessage
  {
    match ex
    case MethodArgumentNotValid(_) => "Invalid input data"
    case ConstraintViolation(_) => "Data validation failed"
    case TypeMismatch(value, name, requiredType) => TypeMismatchMessage(value, name, requiredType)
    case DataIntegrityViolation(m) => DataIntegrityText(m)
    case Other(_) => GeneralMessage
    case _ => ex.message
  }

  /** The list a handler adds to the common map, under its own key. */
  function Extra(ex: Exception): (r: map<Key, Json>)
    ensures r.Keys == ExtraKeys(ex)
  {
    match ex
    case BulkOperation(_, errors) => map[Errors := StringList(errors)]
    case MethodArgumentNotValid(fe) => map[ValidationErrors := StringList(FieldErrorStrings(fe))]
    case ConstraintViolation(vs) => map[ConstraintErrors := StringList(ViolationStrings(vs))]
    case _ => map[]
  }

  /** The @ExceptionHandler method that Spring selects for the exception: the common map plus the handler's list. */
  function Handle(ex: Exception, now: string): (r: ErrorResponse)
    ensures StatusKey in r.body && PathKey in r.body && Timestamp in r.body && ErrorKey in r.body && MessageKey in r.body
    ensures r.body[StatusKey] == JNum(r.status)
    ensures r.body[PathKey] == JStr(Path) && r.body[Timestamp] == JStr(now)
    ensures r.body[ErrorKey].JStr? && r.body[MessageKey].JStr?
  {
    ErrorResponse(StatusOf(ex), ErrorMap(StatusOf(ex), Title(ex), MessageOf(ex), now) + Extra(ex))
  }

  /** Every body has the common five keys, and only the selected handler's list besides. */
  lemma BodyKeys(ex: Exception, now: string)
    ensures Handle(ex, now).body.Keys == BaseKeys + ExtraKeys(ex)
  {
  }

  /** The status of each exception kind. */
  lemma StatusTable(ex: Exception, now: string)
    ensures Handle(ex, now).status == 404 <==> ex.StudentNotFound?
    ensures Handle(ex, now).status == 409 <==> ex.DuplicateStudent? || ex.DataIntegrityViolation?
    ensures Handle(ex, now).status == 500 <==> ex.Other?
    ensures Handle(ex, now).status == 400 <==>
      ex.InvalidStudentData? || ex.BulkOperation? || ex.MethodArgumentNotValid? ||
      ex.ConstraintViolation? || ex.TypeMismatch? || ex.IllegalArgument?
  {
  }

  /** The exceptions raised with a message of their own show that message; the others show a fixed text. */
  lemma MessageShown(ex: Exception, now: string)
    ensures (ex.StudentNotFound? || ex.DuplicateStudent? || ex.InvalidStudentData? ||
             ex.BulkOperation? || ex.IllegalArgument?) ==> Handle(ex, now).body[MessageKey] == JStr(ex.message)
    ensures ex.MethodArgumentNotValid? ==> Handle(ex, now).body[MessageKey] == JStr("Invalid input data")
    ensures ex.ConstraintViolation? ==> Handle(ex, now).body[MessageKey] == JStr("Data validation failed")
  {
  }

  /** handleValidation lists one "field: defaultMessage" string per field error, in order. */
  lemma ValidationErrorsListed(fe: seq<FieldError>, now: string)
    ensures var v := Handle(MethodArgumentNotValid(fe), now).body[ValidationErrors];
      v.JArr? && |v.items| == |fe| &&
      forall k :: 0 <= k < |fe| ==> v.items[k] == JStr(fe[k].field + ": " + fe[k].defaultMessage)
  {
  }

  /** handleConstraintViolation lists one "propertyPath: message" string per violation, in order. */
  lemma ConstraintErrorsListed(vs: seq<Violation>, now: string)
    ensures var v := Handle(ConstraintViolation(vs), now).body[ConstraintErrors];
      v.JArr? && |v.items| == |vs| &&
      forall k :: 0 <= k < |vs| ==> v.items[k] == JStr(vs[k].propertyPath + ": " + vs[k].message)
  {
  }

  /** The email-specific text appears exactly when the database message mentions "email". */
  lemma DataIntegrityMessage(m: string, now: string)
    ensures Handle(DataIntegrityViolation(m), now).body[MessageKey] == JStr(DataIntegrityEmail) <==> Contains(m, "email")
  {
    assert DataIntegrityEmail != DataIntegrityDefault by {
      assert |DataIntegrityEmail| < |DataIntegrityDefault|;
    }
  }

  /** The general handler never shows the exception's own message: two messages give the same response. */
  lemma GeneralHidesMessage(m1: string, m2: string, now: string)
    ensures Handle(Other(m1), now) == Handle(Other(m2), now)
    ensures Handle(Other(m1), now).body[MessageKey] == JStr(GeneralMessage)
  {
  }
}
