/** The exceptions the back end raises and hands to its exception handler. */
module Exceptions {
  /** A field error of a failed @Valid binding: field name and its default message. */
  datatype FieldError = FieldError(field: string, defaultMessage: string)

  /** A Bean Validation constraint violation: property path and message. */
  datatype Violation = Violation(propertyPath: string, message: string)

  datatype Exception =
    | StudentNotFound(message: string)
    | DuplicateStudent(message: string)
    | InvalidStudentData(message: string)
    | BulkOperation(message: string, errors: seq<string>)
    | MethodArgumentNotValid(fieldErrors: seq<FieldError>)
    | ConstraintViolation(violations: seq<Violation>)
    | TypeMismatch(value: string, name: string, requiredType: string)
      /** A database constraint failed; the message names the violated column. */
    | DataIntegrityViolation(message: string)
    | IllegalArgument(message: string)
      /** Any other exception, including a refused @PreAuthorize check. */
    | Other(message: string)
}
