/** Features/Blogs/Commands/CreateBlogCommand.cs. */
module CreateBlogCommand {
  import opened Wrappers
  import opened Common
  import opened Exceptions
  import opened Entities
  import opened Configurations
  import opened Database
  import opened Mapping
  import opened Persistence
  import GenericRepository
  import AuthorRepository

  const AuthorMissingMessage := "author not found"

  /** What Handle does to a store, for a new blog with Id `id` created at `now`. */
  function Expected(db: Db, dto: CreateBlogDto, id: Guid, now: Time): Effect<BlogDto>
  {
    if !GenericRepository.Exists(db.authors, AuthorRepository.AuthorIdOf, dto.authorId) then
      Effect(Raised(Validation(AuthorMissingMessage, [])), db, 0)
    else
      var row := NewBlogRow(id, now, dto);
      match Commit(db, [InsertBlog(row)])
      case Rejected(f) => Effect(Raised(TranslateSaveFailure(f)), db, 1)
      case Committed(db1, _) =>
        // The author looked up after the save is fixed up onto the tracked blog before it is mapped.
        Effect(Returned(Success(ToBlogDto(row, GenericRepository.GetById(db1.authors, row.authorId)), "Blog created successfully", 201)), db1, 1)
  }

  /** CreateBlogCommandHandler.Handle, on a request-scoped context that tracks nothing yet. */
  method Handle(uow: UnitOfWork, dto: CreateBlogDto, id: Guid, now: Time) returns (o: Outcome<BlogDto>)
    requires uow.Valid() && !uow.disposed && uow.tracked == []
    modifies uow
    ensures uow.Valid() && !uow.disposed && uow.Tx() == old(uow.Tx())
    ensures o == Expected(old(uow.State()), dto, id, now).outcome
    ensures uow.State() == Expected(old(uow.State()), dto, id, now).db
    ensures uow.saveCalls == old(uow.saveCalls) + Expected(old(uow.State()), dto, id, now).saves
  {
    var authorExists := GenericRepository.Exists(uow.State().authors, AuthorRepository.AuthorIdOf, dto.authorId);
    if !authorExists {
      return Raised(Validation(AuthorMissingMessage, []));
    }
    var blog := new Blog(id, now, dto.title, dto.body, dto.authorId);
    var _ := uow.AddBlog(blog);
    assert uow.tracked == [BlogEntry(blog, Added, blog.Row())];
    assert uow.Pending() == [InsertBlog(NewBlogRow(id, now, dto))];
    var saved := uow.SaveChanges();
    if saved.SaveFailed? {
      return Raised(saved.exc);
    }
    var createdBlog := uow.FindBlog(blog.id);
    assert blog in TrackedBlogs(uow.tracked) by {
      assert uow.tracked[0] == BlogEntry(blog, Unchanged, blog.Row());
    }
    var author := uow.FindAuthor(blog.authorId);
    var loaded := if blog.author == null then None else Some(blog.author.Row());
    assert loaded == GenericRepository.GetById(uow.authors, blog.authorId);
    o := Returned(Success(ToBlogDto(blog.Row(), loaded), "Blog created successfully", 201));
  }

  /** An AuthorId naming no stored author raises a validation error with no failures; nothing is added or saved. */
  lemma UnknownAuthorIsValidationError(db: Db, dto: CreateBlogDto, id: Guid, now: Time)
    requires AuthorsKeyed(db) && dto.authorId !in db.authors
    ensures Expected(db, dto, id, now) == Effect(Raised(Validation(AuthorMissingMessage, [])), db, 0)
  {
    AuthorRepository.AuthorExistsIffStored(db, dto.authorId);
  }

  /** With a stored author exactly one blog is inserted and one save is issued; a success stores exactly the mapped blog. */
  lemma KnownAuthorInsertsOne(db: Db, dto: CreateBlogDto, id: Guid, now: Time)
    requires AuthorsKeyed(db) && dto.authorId in db.authors
    ensures Expected(db, dto, id, now).saves == 1
    ensures Expected(db, dto, id, now).outcome.Returned? ==>
              Expected(db, dto, id, now).db == db.(blogs := db.blogs[id := NewBlogRow(id, now, dto)])
              && Expected(db, dto, id, now).outcome.result == Success(ToBlogDto(NewBlogRow(id, now, dto), Some(db.authors[dto.authorId])), "Blog created successfully", 201)
    ensures Expected(db, dto, id, now).outcome.Raised? ==> Expected(db, dto, id, now).db == db
  {
    AuthorRepository.AuthorExistsIffStored(db, dto.authorId);
    CommitOne(db, InsertBlog(NewBlogRow(id, now, dto)));
  }

  /** A fitting blog with a stored author and an unused Id is always created: the save count is never consulted. */
  lemma FittingBlogIsCreated(db: Db, dto: CreateBlogDto, id: Guid, now: Time)
    requires Consistent(db) && dto.authorId in db.authors && id !in db.blogs
    requires BlogColumnsFit(NewBlogRow(id, now, dto))
    ensures Expected(db, dto, id, now).outcome.Returned?
    ensures Expected(db, dto, id, now).outcome.result.IsSuccess && Expected(db, dto, id, now).outcome.result.StatusCode == 201
  {
    KnownAuthorInsertsOne(db, dto, id, now);
    CommitOne(db, InsertBlog(NewBlogRow(id, now, dto)));
  }

  /** Every blog the handler adds names a stored author, so the foreign key and every other constraint are kept. */
  lemma CreateKeepsForeignKey(db: Db, dto: CreateBlogDto, id: Guid, now: Time)
    requires Consistent(db)
    ensures Consistent(Expected(db, dto, id, now).db)
    ensures forall k :: k in Expected(db, dto, id, now).db.blogs && k !in db.blogs ==>
              Expected(db, dto, id, now).db.blogs[k].authorId in db.authors
  {
    AuthorRepository.AuthorExistsIffStored(db, dto.authorId);
    CommitKeepsConsistent(db, [InsertBlog(NewBlogRow(id, now, dto))]);
    CommitOne(db, InsertBlog(NewBlogRow(id, now, dto)));
  }

  /**
   * The returned DTO is the new blog, field by field, and its AuthorName is
   * the name of the author it belongs to, reached through the fixed-up
   * navigation.
   */
  lemma CreatedDtoNamesAuthor(db: Db, dto: CreateBlogDto, id: Guid, now: Time)
    requires AuthorsKeyed(db) && Expected(db, dto, id, now).outcome.Returned?
    ensures dto.authorId in db.authors
    ensures Expected(db, dto, id, now).outcome.result.Data
            == Some(BlogDto(id, dto.title, dto.body, dto.authorId, db.authors[dto.authorId].name, now, None))
  {
    AuthorRepository.AuthorExistsIffStored(db, dto.authorId);
    CommitOne(db, InsertBlog(NewBlogRow(id, now, dto)));
  }
}
