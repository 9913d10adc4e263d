/**
 * Features/Authors/Commands/CreateAuthorCommand.cs: the create handler that
 * checks the count SaveChangesAsync reports.
 */
module CreateAuthorCommand {
  import opened Wrappers
  import opened Common
  import opened Exceptions
  import opened Entities
  import opened Configurations
  import opened Database
  import opened Mapping
  import opened Persistence
  import AuthorRepository

  const EmailTakenError := "Email: Author with this email already exists"
  const EmailTakenMessage := "Author with this email already exists"
  const NotSavedError := "Error: could not retrieve created author afeter saving"
  const NotSavedMessage := "Failed to retrieve created author."

  /** The answer once the save reported `count` rows: 500 for none, else 201 with the created author. */
  function AfterSave(count: nat, created: AuthorRow): (r: Result<AuthorDto>)
    ensures r.IsSuccess <==> count != 0
    ensures count == 0 ==> r.StatusCode == 500 && r.Message == NotSavedMessage && r.Errors == [NotSavedError] && r.Data.None?
    ensures count != 0 ==> r.StatusCode == 201 && r.Message == "Created" && r.Errors == [] && r.Data == Some(ToAuthorDto(created))
  {
    if count == 0 then Failure([NotSavedError], 500, NotSavedMessage)
    else Success(ToAuthorDto(created), "Created", 201)
  }

  /** What Handle does to a store, for a new author with Id `id` created at `now`. */
  function Expected(db: Db, dto: CreateAuthorDto, id: Guid, now: Time): Effect<AuthorDto>
  {
    if AuthorRepository.EmailExists(db, dto.email) then
      Effect(Returned(Failure([EmailTakenError], 409, EmailTakenMessage)), db, 0)
    else
      var row := NewAuthorRow(id, now, dto);
      match Commit(db, [InsertAuthor(row)])
      case Rejected(f) => Effect(Raised(TranslateSaveFailure(f)), db, 1)
      case Committed(db1, n) => Effect(Returned(AfterSave(n, row)), db1, 1)
  }

  /** CreateAuthorCommandHandler.Handle, on a request-scoped context that tracks nothing yet. */
  method Handle(uow: UnitOfWork, dto: CreateAuthorDto, id: Guid, now: Time) returns (o: Outcome<AuthorDto>)
    requires uow.Valid() && !uow.disposed && uow.tracked == []
    modifies uow
    ensures uow.Valid() && !uow.disposed && uow.Tx() == old(uow.Tx())
    ensures o == Expected(old(uow.State()), dto, id, now).outcome
    ensures uow.State() == Expected(old(uow.State()), dto, id, now).db
    ensures uow.saveCalls == old(uow.saveCalls) + Expected(old(uow.State()), dto, id, now).saves
  {
    if AuthorRepository.EmailExists(uow.State(), dto.email) {
      return Returned(Failure([EmailTakenError], 409, EmailTakenMessage));
    }
    var author := new Author(id, now, dto.name, dto.email, dto.imageUrl);
    var createdAuthor := uow.AddAuthor(author);
    assert uow.tracked == [AuthorEntry(author, Added, author.Row())];
    assert uow.Pending() == [InsertAuthor(NewAuthorRow(id, now, dto))];
    var saved := uow.SaveChanges();
    match saved
    case SaveFailed(e) => o := Raised(e);
    case Saved(n) => o := Returned(AfterSave(n, createdAuthor.Row()));
  }

  /** A used email gives 409 with its message and error; nothing is added and nothing is saved. */
  lemma UsedEmailIsConflict(db: Db, dto: CreateAuthorDto, id: Guid, now: Time)
    requires AuthorRepository.EmailExists(db, dto.email)
    ensures Expected(db, dto, id, now) == Effect(Returned(Failure([EmailTakenError], 409, EmailTakenMessage)), db, 0)
  {
  }

  /** With an unused email exactly one author is inserted and one save is issued; a success stores exactly the mapped author. */
  lemma UnusedEmailInsertsOne(db: Db, dto: CreateAuthorDto, id: Guid, now: Time)
    requires !AuthorRepository.EmailExists(db, dto.email)
    ensures Expected(db, dto, id, now).saves == 1
    ensures Expected(db, dto, id, now).outcome.Returned? ==>
              Expected(db, dto, id, now).db == db.(authors := db.authors[id := NewAuthorRow(id, now, dto)])
              && Expected(db, dto, id, now).outcome.result == Success(ToAuthorDto(NewAuthorRow(id, now, dto)), "Created", 201)
    ensures Expected(db, dto, id, now).outcome.Raised? ==> Expected(db, dto, id, now).db == db
  {
    CommitOne(db, InsertAuthor(NewAuthorRow(id, now, dto)));
  }

  /** The count check can never fire: a committed insert always reports one row, so no 500 is ever returned. */
  lemma NoZeroCountFailure(db: Db, dto: CreateAuthorDto, id: Guid, now: Time)
    ensures Expected(db, dto, id, now).outcome.Returned? ==>
              Expected(db, dto, id, now).outcome.result.StatusCode in {409, 201}
  {
  }

  /** Whatever happens, the store keeps every constraint; in particular emails stay unique. */
  lemma CreateKeepsConsistent(db: Db, dto: CreateAuthorDto, id: Guid, now: Time)
    requires Consistent(db)
    ensures Consistent(Expected(db, dto, id, now).db)
  {
    CommitKeepsConsistent(db, [InsertAuthor(NewAuthorRow(id, now, dto))]);
  }

  /** A DTO that fits the columns, with an unused email and an unused Id, is created with 201. */
  lemma FittingNewAuthorIsCreated(db: Db, dto: CreateAuthorDto, id: Guid, now: Time)
    requires Consistent(db)
    requires AuthorColumnsFit(NewAuthorRow(id, now, dto))
    requires !AuthorRepository.EmailExists(db, dto.email) && id !in db.authors
    ensures Expected(db, dto, id, now).outcome == Returned(Success(ToAuthorDto(NewAuthorRow(id, now, dto)), "Created", 201))
  {
    var row := NewAuthorRow(id, now, dto);
    AuthorRepository.UnusedEmailIsFree(db, dto.email, id);
    CommitOne(db, InsertAuthor(row));
  }

  /** A DTO without a name is refused by the database with error 515, which surfaces as a constraint violation. */
  lemma MissingNameIsConstraintViolation(db: Db, dto: CreateAuthorDto, id: Guid, now: Time)
    requires dto.name.None? && !AuthorRepository.EmailExists(db, dto.email)
    ensures Expected(db, dto, id, now).outcome.Raised?
    ensures Expected(db, dto, id, now).outcome.exc.ConstraintViolation?
    ensures Expected(db, dto, id, now).db == db
  {
    CommitOne(db, InsertAuthor(NewAuthorRow(id, now, dto)));
  }

  /** Reusing a stored author's Id is refused with error 2627 and surfaces as a duplicate entry. */
  lemma ReusedIdIsDuplicateEntry(db: Db, dto: CreateAuthorDto, id: Guid, now: Time)
    requires AuthorColumnsFit(NewAuthorRow(id, now, dto))
    requires !AuthorRepository.EmailExists(db, dto.email) && id in db.authors
    ensures Expected(db, dto, id, now).outcome.Raised? && Expected(db, dto, id, now).outcome.exc.DuplicateEntry?
  {
    CommitOne(db, InsertAuthor(NewAuthorRow(id, now, dto)));
  }
}

/**
 * Features/Authors/Commands/CreateAuthorCommand/CreateAuthorCommand.cs: the
 * create handler of the nested namespace, which ignores the save count.
 */
module NestedCreateAuthorCommand {
  import opened Wrappers
  import opened Common
  import opened Exceptions
  import opened Entities
  import opened Configurations
  import opened Database
  import opened Mapping
  import opened Persistence
  import AuthorRepository
  import CreateAuthorCommand

  const EmailTakenError := "Email: Author with this email already exists"
  const EmailTakenMessage := "Author with this email already exists"

  /** What Handle does to a store. */
  function Expected(db: Db, dto: CreateAuthorDto, id: Guid, now: Time): Effect<AuthorDto>
  {
    if AuthorRepository.EmailExists(db, dto.email) then
      Effect(Returned(Failure([EmailTakenError], 409, EmailTakenMessage)), db, 0)
    else
      var row := NewAuthorRow(id, now, dto);
      match Commit(db, [InsertAuthor(row)])
      case Rejected(f) => Effect(Raised(TranslateSaveFailure(f)), db, 1)
      case Committed(db1, _) => Effect(Returned(Success(ToAuthorDto(row), "Created", 201)), db1, 1)
  }

  /** CreateAuthorCommandHandler.Handle of the nested namespace. */
  method Handle(uow: UnitOfWork, dto: CreateAuthorDto, id: Guid, now: Time) returns (o: Outcome<AuthorDto>)
    requires uow.Valid() && !uow.disposed && uow.tracked == []
    modifies uow
    ensures uow.Valid() && !uow.disposed && uow.Tx() == old(uow.Tx())
    ensures o == Expected(old(uow.State()), dto, id, now).outcome
    ensures uow.State() == Expected(old(uow.State()), dto, id, now).db
    ensures uow.saveCalls == old(uow.saveCalls) + Expected(old(uow.State()), dto, id, now).saves
  {
    var isEmailExists := AuthorRepository.EmailExists(uow.State(), dto.email);
    if isEmailExists {
      return Returned(Failure([EmailTakenError], 409, EmailTakenMessage));
    }
    var author := new Author(id, now, dto.name, dto.email, dto.imageUrl);
    var createdAuthor := uow.AddAuthor(author);
    assert uow.tracked == [AuthorEntry(author, Added, author.Row())];
    assert uow.Pending() == [InsertAuthor(NewAuthorRow(id, now, dto))];
    var saved := uow.SaveChanges();
    if saved.SaveFailed? {
      return Raised(saved.exc);
    }
    o := Returned(Success(ToAuthorDto(createdAuthor.Row()), "Created", 201));
  }

  /** Every answer other than 409 is a 201 success carrying the author that Add returned. */
  lemma EveryOtherAnswerIsCreated(db: Db, dto: CreateAuthorDto, id: Guid, now: Time)
    ensures Expected(db, dto, id, now).outcome.Returned? ==>
              Expected(db, dto, id, now).outcome.result.StatusCode in {409, 201}
    ensures Expected(db, dto, id, now).outcome.Returned? && Expected(db, dto, id, now).outcome.result.StatusCode == 201 ==>
              Expected(db, dto, id, now).outcome.result.Data == Some(ToAuthorDto(NewAuthorRow(id, now, dto)))
  {
  }

  /** The email is checked before anything is added: a used email leaves the store as it was and saves nothing. */
  lemma EmailCheckedFirst(db: Db, dto: CreateAuthorDto, id: Guid, now: Time)
    requires AuthorRepository.EmailExists(db, dto.email)
    ensures Expected(db, dto, id, now).db == db && Expected(db, dto, id, now).saves == 0
    ensures Expected(db, dto, id, now).outcome == Returned(Failure([EmailTakenError], 409, EmailTakenMessage))
  {
  }

  /** The two create handlers behave identically, because a committed single insert never reports zero rows. */
  lemma VariantsAgree(db: Db, dto: CreateAuthorDto, id: Guid, now: Time)
    ensures Expected(db, dto, id, now) == CreateAuthorCommand.Expected(db, dto, id, now)
  {
  }
}
