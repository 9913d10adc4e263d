/**
 * The exceptions that reach the global handler, one constructor per class the
 * middleware distinguishes, and the value a handler hands back: a returned
 * Result or a raised exception (Dafny has no exceptions).
 */
module Exceptions {
  import opened Common

  /** FluentValidation.Results.ValidationFailure. */
  datatype ValidationFailure = ValidationFailure(propertyName: string, errorMessage: string)

  datatype Exc =
    | Validation(message: string, failures: seq<ValidationFailure>)   // FluentValidation.ValidationException
    | Unauthorized(message: string)                                  // UnauthorizedAccessException
    | NotFound(message: string)                                      // NotFoundException
    | Sql(number: int, message: string)                              // SqlException (a DbException)
    | DatabaseConnection(message: string)                            // DatabaseConnectionException
    | DatabaseOperation(message: string)                             // DatabaseOperationException
    | Concurrency(message: string)                                   // DbUpdateConcurrencyException
    | ConstraintViolation(message: string)                           // DatabaseConstraintViolationException
    | DuplicateEntry(message: string)                                // DuplicateEntryException
    | OtherDb(message: string)                                       // any other DbException
    | Other(message: string)                                         // every other exception

  /** `exception is DbException`: SqlException derives from DbException. */
  predicate IsDbException(e: Exc)
  {
    e.Sql? || e.OtherDb?
  }

  /** What a handler call ends with. */
  datatype Outcome<T> = Returned(result: Result<T>) | Raised(exc: Exc)
}
