/**
 * The classification in GlobalExceptionHandlerMiddleware.HandleExceptionAsync:
 * the first case whose type matches the exception decides the status code
 * (section 15 of RFC 9110) and the failure envelope written as the body.
 */
module ExceptionHandling {
  import opened Wrappers
  import opened Common
  import opened Exceptions

  const BadRequest := 400
  const Unauthorized := 401
  const NotFound := 404
  const Conflict := 409
  const InternalServerError := 500
  const ServiceUnavailable := 503

  /** The fixed error texts of the cases that do not pass the exception's message on. */
  const DuplicateText := "A record with the same unique identifier already exists."
  const DeadlockText := "The operation could not be completed due to a database deadlock. Please try again."
  const TransientText := "A transient issue occurred while connecting to the database. Please try again shortly."
  const SqlErrorText := "An unexpected database error occurred. Please contact support."
  const ConnectionErrorText := "A problem occurred while connecting to the database. Please try again later."
  const OperationErrorText := "An unexpected database operation error occurred. Please contact support."
  const ConcurrencyText := "The record you attempted to update was modified by another user. Please refresh and try again."
  const DbErrorText := "An error occurred while accessing the database. Please try again later."

  /** The status written to the response and the serialised Result<object> (its data always null). */
  datatype Response = Response(statusCode: int, body: Result<()>)

  /** "PropertyName: ErrorMessage" for every failure, in order. */
  function FailureTexts(fs: seq<ValidationFailure>): (r: seq<string>)
    ensures |r| == |fs|
    ensures forall i :: 0 <= i < |fs| ==> r[i] == fs[i].propertyName + ": " + fs[i].errorMessage
  {
    if fs == [] then [] else [fs[0].propertyName + ": " + fs[0].errorMessage] + FailureTexts(fs[1..])
  }

  function Reply(errors: seq<string>, status: int, message: string): Response
  {
    Response(status, Failure(errors, status, message))
  }

  /** The nested switch on SqlException.Number. */
  function SqlReply(number: int): Response
  {
    if number == 2601 || number == 2627 then
      Reply([DuplicateText], Conflict, "Duplicate Entry")
    else if number == 1205 then
      Reply([DeadlockText], Conflict, "Database Conflict")
    else if number == -2 || number == 2 || number == 53 then
      Reply([TransientText], InternalServerError, "Database Connection Issue")
    else
      Reply([SqlErrorText], InternalServerError, "Database Error")
  }

  /** The switch over the exception, case by case in source order. */
  function HandleException(e: Exc): (r: Response)
    ensures !r.body.IsSuccess && FromFactory(r.body) && r.body.Data.None?
    ensures r.statusCode == r.body.StatusCode
    ensures e.Validation? ==> r.body.Errors == FailureTexts(e.failures)
    ensures !e.Validation? ==> |r.body.Errors| == 1
  {
    match e
    case Validation(_, fs) => Reply(FailureTexts(fs), BadRequest, "Validation failed.")
    case Unauthorized(m) => Reply([m], Unauthorized, "Unauthorized access.")
    case NotFound(m) => Reply([m], NotFound, "Resource not found.")
    case Sql(n, _) => SqlReply(n)
    case DatabaseConnection(_) =>
      Reply([ConnectionErrorText], InternalServerError, "Database Connection Error")
    case DatabaseOperation(_) =>
      Reply([OperationErrorText], InternalServerError, "Database Operation Error")
    case Concurrency(_) =>
      Reply([ConcurrencyText], Conflict, "Database concurrency error.")
    case ConstraintViolation(m) => Reply([m], BadRequest, "Invalid Data")
    case DuplicateEntry(m) => Reply([m], Conflict, "Duplicate Entry")
    case OtherDb(_) =>
      Reply([DbErrorText], ServiceUnavailable, "Database error occurred.")
    case Other(m) => Reply([m], InternalServerError, "An unexpected error occurred.")
  }

  /** A validation exception, whatever its failures, is answered 400 "Validation failed." with one "Property: message" text per failure. */
  lemma ValidationIsBadRequest(m: string, fs: seq<ValidationFailure>)
    ensures HandleException(Validation(m, fs)) == Response(BadRequest, Failure(FailureTexts(fs), BadRequest, "Validation failed."))
  {
  }

  /** The unit of work's two database exceptions are answered 500, each with its own fixed text; their messages are not shown. */
  lemma DatabaseExceptionsAreInternalError(m: string)
    ensures HandleException(DatabaseConnection(m)) == Response(InternalServerError, Failure([ConnectionErrorText], InternalServerError, "Database Connection Error"))
    ensures HandleException(DatabaseOperation(m)) == Response(InternalServerError, Failure([OperationErrorText], InternalServerError, "Database Operation Error"))
  {
  }

  /** Every response status is one of six codes, all client or server errors. */
  lemma StatusIsAnError(e: Exc)
    ensures HandleException(e).statusCode in {BadRequest, Unauthorized, NotFound, Conflict, InternalServerError, ServiceUnavailable}
    ensures 400 <= HandleException(e).statusCode <= 599
  {
  }

  /** The generic DbException case (503) is reached by exactly the database errors that are not SqlExceptions. */
  lemma ServiceUnavailableOnlyForOtherDb(e: Exc)
    ensures HandleException(e).statusCode == ServiceUnavailable <==> IsDbException(e) && !e.Sql?
  {
  }

  /** A SqlException is classified by its number and never reaches the later cases. */
  lemma SqlClassifiedByNumber(n: int, m: string)
    ensures HandleException(Sql(n, m)).statusCode == (if n in {2601, 2627, 1205} then Conflict else InternalServerError)
    ensures HandleException(Sql(n, m)).statusCode != ServiceUnavailable
    ensures n in {2601, 2627} ==> HandleException(Sql(n, m)).body.Message == "Duplicate Entry"
    ensures n == 1205 ==> HandleException(Sql(n, m)).body.Message == "Database Conflict"
    ensures n in {-2, 2, 53} ==> HandleException(Sql(n, m)).body.Message == "Database Connection Issue"
    ensures n !in {2601, 2627, 1205, -2, 2, 53} ==> HandleException(Sql(n, m)).body.Message == "Database Error"
  {
  }

  /** A conflict (409) arises exactly from a duplicate, a deadlock or a concurrency conflict. */
  lemma ConflictSources(e: Exc)
    ensures HandleException(e).statusCode == Conflict <==>
              e.DuplicateEntry? || e.Concurrency? || (e.Sql? && e.number in {2601, 2627, 1205})
  {
  }

  /** 400 comes from a validation failure or a constraint violation, which carries its own message as the error. */
  lemma BadRequestSources(e: Exc)
    ensures HandleException(e).statusCode == BadRequest <==> e.Validation? || e.ConstraintViolation?
    ensures e.ConstraintViolation? ==> HandleException(e).body.Errors == [e.message]
  {
  }

  /** An exception of no listed type becomes 500 with its own message as the only error. */
  lemma UnmatchedIsInternalError(m: string)
    ensures HandleException(Other(m)) == Response(500, Failure([m], 500, "An unexpected error occurred."))
  {
  }

  /** Unauthorized and NotFound each carry the exception's message as their single error. */
  lemma MessageCarryingCases(m: string)
    ensures HandleException(Exceptions.Unauthorized(m)).statusCode == 401 && HandleException(Exceptions.Unauthorized(m)).body.Errors == [m]
    ensures HandleException(Exceptions.NotFound(m)).statusCode == 404 && HandleException(Exceptions.NotFound(m)).body.Errors == [m]
  {
  }
}
