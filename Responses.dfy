/**
 * What the client finally sees when a handler raises: the unit of work's
 * translation of a failed save composed with the global exception handler's
 * classification.
 */
module Responses {
  import opened Wrappers
  import opened Common
  import opened Exceptions
  import opened Entities
  import opened Configurations
  import opened Database
  import opened Mapping
  import opened Persistence
  import opened ExceptionHandling
  import Validators
  import AuthorRepository
  import CreateAuthorCommand
  import CreateBlogCommand

  /** The response written for a save that failed in the given way. */
  function SaveFailureResponse(f: DbFailure): Response
  {
    HandleException(TranslateSaveFailure(f))
  }

  /** A duplicate key or a concurrency conflict gives 409, a NULL in a required column 400, anything else 500; never 503. */
  lemma SaveFailureStatus(f: DbFailure)
    ensures SaveFailureResponse(f).statusCode == Conflict <==>
              (f.SqlFailure? && f.number in {SqlUniqueIndex, SqlPrimaryKey}) || f.ConcurrencyFailure?
    ensures SaveFailureResponse(f).statusCode == BadRequest <==> f.SqlFailure? && f.number == SqlNotNull
    ensures SaveFailureResponse(f).statusCode == InternalServerError <==>
              (f.SqlFailure? && f.number !in {SqlNotNull, SqlUniqueIndex, SqlPrimaryKey}) || f.UpdateFailure? || f.TimedOut?
    ensures SaveFailureResponse(f).statusCode != ServiceUnavailable
  {
    var e := TranslateSaveFailure(f);
    TranslationNeverLeaksDbException(f);
    ConflictSources(e);
    BadRequestSources(e);
    ServiceUnavailableOnlyForOtherDb(e);
  }

  /** A duplicate key reaches the client as 409 "Duplicate Entry", its one error naming the database's message. */
  lemma DuplicateKeyIsConflict(n: int, m: string)
    requires n == SqlUniqueIndex || n == SqlPrimaryKey
    ensures SaveFailureResponse(SqlFailure(n, m))
         == Response(409, Failure(["A record with the same unique identifier already exists: " + m], 409, "Duplicate Entry"))
  {
  }

  /** A missing required value reaches the client as 400 "Invalid Data". */
  lemma NotNullIsInvalidData(m: string)
    ensures SaveFailureResponse(SqlFailure(SqlNotNull, m))
         == Response(400, Failure(["A required field was missing or invalid: " + m], 400, "Invalid Data"))
  {
  }

  /** Registering an author under a stored Id is answered 409. */
  lemma ReusedAuthorIdIsConflict(db: Db, dto: CreateAuthorDto, id: Guid, now: Time)
    requires AuthorColumnsFit(NewAuthorRow(id, now, dto))
    requires !AuthorRepository.EmailExists(db, dto.email) && id in db.authors
    ensures CreateAuthorCommand.Expected(db, dto, id, now).outcome.Raised?
    ensures HandleException(CreateAuthorCommand.Expected(db, dto, id, now).outcome.exc).statusCode == Conflict
  {
    CreateAuthorCommand.ReusedIdIsDuplicateEntry(db, dto, id, now);
  }

  /** Registering an author without a name is answered 400. */
  lemma NamelessAuthorIsBadRequest(db: Db, dto: CreateAuthorDto, id: Guid, now: Time)
    requires dto.name.None? && !AuthorRepository.EmailExists(db, dto.email)
    ensures CreateAuthorCommand.Expected(db, dto, id, now).outcome.Raised?
    ensures HandleException(CreateAuthorCommand.Expected(db, dto, id, now).outcome.exc).statusCode == BadRequest
  {
    CreateAuthorCommand.MissingNameIsConstraintViolation(db, dto, id, now);
  }

  /** A command the validator accepts, with an unused email and a fresh Id, is always created with 201. */
  lemma AcceptedAuthorIsCreated(db: Db, dto: CreateAuthorDto, f: Validators.Formats, id: Guid, now: Time)
    requires Consistent(db) && Validators.ValidateCreateAuthor(Some(dto), f) == []
    requires !AuthorRepository.EmailExists(db, dto.email) && id !in db.authors
    ensures CreateAuthorCommand.Expected(db, dto, id, now).outcome
         == Returned(Success(ToAuthorDto(NewAuthorRow(id, now, dto)), "Created", 201))
    ensures CreateAuthorCommand.Expected(db, dto, id, now).db.authors == db.authors[id := NewAuthorRow(id, now, dto)]
  {
    Validators.CreateAuthorAcceptedFitsColumns(dto, f, id, now);
    CreateAuthorCommand.FittingNewAuthorIsCreated(db, dto, id, now);
    CreateAuthorCommand.UnusedEmailInsertsOne(db, dto, id, now);
  }

  /** A blog for an unknown author is answered 400 "Validation failed." with an empty error list. */
  lemma UnknownAuthorBlogIsEmptyBadRequest(db: Db, dto: CreateBlogDto, id: Guid, now: Time)
    requires AuthorsKeyed(db) && dto.authorId !in db.authors
    ensures CreateBlogCommand.Expected(db, dto, id, now).outcome.Raised?
    ensures HandleException(CreateBlogCommand.Expected(db, dto, id, now).outcome.exc)
         == Response(400, Failure([], 400, "Validation failed."))
  {
    CreateBlogCommand.UnknownAuthorIsValidationError(db, dto, id, now);
  }

  /** A blog the validator accepts, for a stored author and under a fresh Id, is always created with 201. */
  lemma AcceptedBlogIsCreated(db: Db, dto: CreateBlogDto, id: Guid, now: Time)
    requires Consistent(db) && Validators.ValidateCreateBlog(dto) == []
    requires dto.authorId in db.authors && id !in db.blogs
    ensures CreateBlogCommand.Expected(db, dto, id, now).outcome
         == Returned(Success(ToBlogDto(NewBlogRow(id, now, dto), Some(db.authors[dto.authorId])), "Blog created successfully", 201))
  {
    Validators.CreateBlogAcceptedFitsColumns(dto, id, now);
    CreateBlogCommand.FittingBlogIsCreated(db, dto, id, now);
    CreateBlogCommand.KnownAuthorInsertsOne(db, dto, id, now);
  }
}
