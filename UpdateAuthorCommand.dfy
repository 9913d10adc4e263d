/** Features/Authors/Commands/UpdateAuthorCommand/UpdateAuthorCommand.cs. */
module UpdateAuthorCommand {
  import opened Wrappers
  import opened Common
  import opened Exceptions
  import opened Entities
  import opened Configurations
  import opened Database
  import opened Mapping
  import opened Persistence
  import AuthorRepository
  import TextFormat

  const EmailTakenError := "Email: email is already exists"
  const EmailTakenMessage := "Author with this email already exists"
  const NotSavedError := "Error: Cannot save updated author in DB"

  /** The interpolated message of the NotFoundException. */
  function NotFoundMessage(id: Guid): string
  {
    "The author id: " + TextFormat.GuidText(id) + " not found"
  }

  /** The answer once the save reported `count` rows: 500 for none, else 204 with the updated author. */
  function AfterSave(count: nat, updated: AuthorRow): (r: Result<AuthorDto>)
    ensures r.IsSuccess <==> count != 0
    ensures count == 0 ==> r.StatusCode == 500 && r.Message == "Internal Server Error" && r.Errors == [NotSavedError] && r.Data.None?
    ensures count != 0 ==> r.StatusCode == 204 && r.Message == "Updated" && r.Errors == [] && r.Data == Some(ToAuthorDto(updated))
  {
    if count == 0 then Failure([NotSavedError], 500, "Internal Server Error")
    else Success(ToAuthorDto(updated), "Updated", 204)
  }

  /** The commands change detection derives for the loaded author now in state `row`. */
  function Detected(original: AuthorRow, row: AuthorRow): (r: seq<RowChange>)
    ensures |r| <= 1
    ensures r == [] <==> row == original
    ensures forall c :: c in r ==> c == UpdateAuthor(row)
  {
    if row != original then [UpdateAuthor(row)] else []
  }

  /** What Handle does to a store. */
  function Expected(db: Db, id: Guid, dto: UpdateAuthorDto, now: Time): Effect<AuthorDto>
  {
    if id !in db.authors then Effect(Raised(NotFound(NotFoundMessage(id))), db, 0)
    else if AuthorRepository.EmailExists(db, dto.email) then
      Effect(Returned(Failure([EmailTakenError], 409, EmailTakenMessage)), db, 0)
    else
      var row := UpdatedDetails(db.authors[id], dto.name, dto.email, dto.imageUrl, now);
      match Commit(db, Detected(db.authors[id], row))
      case Rejected(f) => Effect(Raised(TranslateSaveFailure(f)), db, 1)
      case Committed(db1, n) => Effect(Returned(AfterSave(n, row)), db1, 1)
  }

  /** UpdateAuthorCommandHandler.Handle, on a request-scoped context that tracks nothing yet. */
  method Handle(uow: UnitOfWork, id: Guid, dto: UpdateAuthorDto, now: Time) returns (o: Outcome<AuthorDto>)
    requires uow.Valid() && !uow.disposed && uow.tracked == []
    modifies uow
    ensures uow.Valid() && !uow.disposed && uow.Tx() == old(uow.Tx())
    ensures o == Expected(old(uow.State()), id, dto, now).outcome
    ensures uow.State() == Expected(old(uow.State()), id, dto, now).db
    ensures uow.saveCalls == old(uow.saveCalls) + Expected(old(uow.State()), id, dto, now).saves
  {
    var author := uow.FindAuthor(id);
    if author == null {
      return Raised(NotFound(NotFoundMessage(id)));
    }
    var original := author.Row();
    if AuthorRepository.EmailExists(uow.State(), dto.email) {
      return Returned(Failure([EmailTakenError], 409, EmailTakenMessage));
    }
    author.UpdateDetails(now, dto.name, dto.email, dto.imageUrl);
    assert uow.tracked == [AuthorEntry(author, Unchanged, original)];
    assert uow.Pending() == Detected(original, author.Row());
    var saved := uow.SaveChanges();
    match saved
    case SaveFailed(e) => o := Raised(e);
    case Saved(n) => o := Returned(AfterSave(n, author.Row()));
  }

  /** An unknown Id raises NotFound naming the Id; no email check, no save, nothing changed. */
  lemma UnknownIdIsNotFound(db: Db, id: Guid, dto: UpdateAuthorDto, now: Time)
    requires id !in db.authors
    ensures Expected(db, id, dto, now) == Effect(Raised(NotFound(NotFoundMessage(id))), db, 0)
  {
  }

  /** An email that any stored author has, the target author included, gives 409 and changes nothing. */
  lemma UsedEmailIsConflict(db: Db, id: Guid, dto: UpdateAuthorDto, now: Time)
    requires id in db.authors && AuthorRepository.EmailExists(db, dto.email)
    ensures Expected(db, id, dto, now) == Effect(Returned(Failure([EmailTakenError], 409, EmailTakenMessage)), db, 0)
  {
  }

  /** Resubmitting the author's own current email is refused with 409. */
  lemma OwnEmailIsConflict(db: Db, id: Guid, dto: UpdateAuthorDto, now: Time)
    requires id in db.authors && dto.email == db.authors[id].email
    ensures Expected(db, id, dto, now).outcome == Returned(Failure([EmailTakenError], 409, EmailTakenMessage))
    ensures Expected(db, id, dto, now).db == db
  {
  }

  /** Past the checks the email always changes, so the update is always detected and one row is written: the 500 branch is unreachable. */
  lemma NoZeroCountFailure(db: Db, id: Guid, dto: UpdateAuthorDto, now: Time)
    ensures Expected(db, id, dto, now).outcome.Returned? ==>
              Expected(db, id, dto, now).outcome.result.StatusCode in {409, 204}
  {
    if id in db.authors && !AuthorRepository.EmailExists(db, dto.email) {
      var row := UpdatedDetails(db.authors[id], dto.name, dto.email, dto.imageUrl, now);
      assert row.email != db.authors[id].email;
    }
  }

  /** A success overwrites exactly the target author with UpdateDetails' result and leaves every other row alone. */
  lemma SuccessUpdatesOnlyTarget(db: Db, id: Guid, dto: UpdateAuthorDto, now: Time)
    requires AuthorsKeyed(db)
    requires Expected(db, id, dto, now).outcome.Returned? && Expected(db, id, dto, now).outcome.result.IsSuccess
    ensures id in db.authors
    ensures Expected(db, id, dto, now).db
         == db.(authors := db.authors[id := UpdatedDetails(db.authors[id], dto.name, dto.email, dto.imageUrl, now)])
    ensures Expected(db, id, dto, now).outcome.result
         == Success(ToAuthorDto(UpdatedDetails(db.authors[id], dto.name, dto.email, dto.imageUrl, now)), "Updated", 204)
    ensures Expected(db, id, dto, now).saves == 1
  {
    var row := UpdatedDetails(db.authors[id], dto.name, dto.email, dto.imageUrl, now);
    assert row.email != db.authors[id].email;
    assert Detected(db.authors[id], row) == [UpdateAuthor(row)];
    CommitOne(db, UpdateAuthor(row));
  }

  /** Whatever happens, the store keeps every constraint. */
  lemma UpdateKeepsConsistent(db: Db, id: Guid, dto: UpdateAuthorDto, now: Time)
    requires Consistent(db)
    ensures Consistent(Expected(db, id, dto, now).db)
  {
    if id in db.authors {
      CommitKeepsConsistent(db, Detected(db.authors[id], UpdatedDetails(db.authors[id], dto.name, dto.email, dto.imageUrl, now)));
    }
  }

  /** A name longer than the column passes the handler's checks but is refused by the database with error 2628, a database operation error. */
  lemma OverlongNameIsOperationError(db: Db, id: Guid, dto: UpdateAuthorDto, now: Time)
    requires AuthorsKeyed(db) && id in db.authors && !AuthorRepository.EmailExists(db, dto.email)
    requires dto.name.Some? && |dto.name.value| > NameMaxLength && dto.email.Some?
    ensures Expected(db, id, dto, now).outcome.Raised? && Expected(db, id, dto, now).outcome.exc.DatabaseOperation?
    ensures Expected(db, id, dto, now).db == db
  {
    var row := UpdatedDetails(db.authors[id], dto.name, dto.email, dto.imageUrl, now);
    assert row.email != db.authors[id].email;
    assert Detected(db.authors[id], row) == [UpdateAuthor(row)];
    CommitOne(db, UpdateAuthor(row));
    assert AuthorColumnsCheck(row) == Some(SqlFailure(SqlTruncation, "String or binary data would be truncated in table 'Authors'."));
  }
}
