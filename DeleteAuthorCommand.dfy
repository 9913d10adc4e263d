/** Features/Authors/Commands/DeleteAuthorCommand/DeleteAuthorCommand.cs. */
module DeleteAuthorCommand {
  import opened Wrappers
  import opened Common
  import opened Exceptions
  import opened Entities
  import opened Configurations
  import opened Database
  import opened Persistence
  import GenericRepository
  import AuthorRepository

  const NotFoundMessage := "The author already not found in DB"

  /** What Handle does to a store; the data of a success is the deleted author entity itself. */
  function Expected(db: Db, id: Guid): Effect<AuthorRow>
  {
    if id !in db.authors then Effect(Raised(NotFound(NotFoundMessage)), db, 0)
    else
      match Commit(db, [DeleteAuthor(id)])
      case Rejected(f) => Effect(Raised(TranslateSaveFailure(f)), db, 1)
      case Committed(db1, _) => Effect(Returned(Success(db.authors[id], "Deleted", 204)), db1, 1)
  }

  /** DeleteAuthorCommandHandler.Handle, on a request-scoped context that tracks nothing yet. */
  method Handle(uow: UnitOfWork, id: Guid) returns (o: Outcome<AuthorRow>)
    requires uow.Valid() && !uow.disposed && uow.tracked == []
    modifies uow
    ensures uow.Valid() && !uow.disposed && uow.Tx() == old(uow.Tx())
    ensures o == Expected(old(uow.State()), id).outcome
    ensures uow.State() == Expected(old(uow.State()), id).db
    ensures uow.saveCalls == old(uow.saveCalls) + Expected(old(uow.State()), id).saves
  {
    var author := uow.FindAuthor(id);
    if author == null {
      return Raised(NotFound(NotFoundMessage));
    }
    var original := author.Row();
    uow.DeleteAuthor(author);
    assert uow.tracked == [AuthorEntry(author, Deleted, original)];
    assert uow.Pending() == [DeleteAuthor(id)];
    var saved := uow.SaveChanges();
    if saved.SaveFailed? {
      return Raised(saved.exc);
    }
    o := Returned(Success(author.Row(), "Deleted", 204));
  }

  /** An unknown Id raises NotFound; nothing is deleted and nothing saved. */
  lemma UnknownIdIsNotFound(db: Db, id: Guid)
    requires id !in db.authors
    ensures Expected(db, id) == Effect(Raised(NotFound(NotFoundMessage)), db, 0)
  {
  }

  /** A stored author is always deleted with one save, answered with 204 and the author it was, together with its blogs. */
  lemma FoundAuthorIsDeleted(db: Db, id: Guid)
    requires id in db.authors
    ensures Expected(db, id).outcome == Returned(Success(db.authors[id], "Deleted", 204))
    ensures Expected(db, id).db == CascadeDeleteAuthor(db, id) && Expected(db, id).saves == 1
  {
    CommitOne(db, DeleteAuthor(id));
  }

  /** After a success the Id is no longer found by any query, and the other authors are unchanged. */
  lemma DeletedIdIsGone(db: Db, id: Guid)
    requires Consistent(db) && id in db.authors
    ensures var db1 := Expected(db, id).db;
            && GenericRepository.GetById(db1.authors, id).None?
            && !GenericRepository.Exists(db1.authors, AuthorRepository.AuthorIdOf, id)
            && (forall k :: k in db.authors && k != id ==> k in db1.authors && db1.authors[k] == db.authors[k])
            && (forall k :: k in db1.blogs ==> db1.blogs[k].authorId != id)
            && Consistent(db1)
  {
    FoundAuthorIsDeleted(db, id);
    var db1 := CascadeDeleteAuthor(db, id);
    CascadeKeepsConsistent(db, id);
    assert GenericRepository.Keyed(db1.authors, AuthorRepository.AuthorIdOf);
    GenericRepository.AbsentIdIsInvisible(db1.authors, AuthorRepository.AuthorIdOf, id);
  }
}
