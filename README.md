# MyBlogSystem core in Dafny

A model of the request-handling core of the MyBlogSystem service, a layered
ASP.NET blog service. Authors and their blog posts are stored through an
Entity Framework context (held by a unit of work), changed by MediatR
command handlers, read by query handlers and checked by FluentValidation
validators. Whatever a handler throws is turned into an HTTP status and a
failure `Result` envelope by a global exception handler.

The project is organised by source component:

- **Common** is the `Result<T>` envelope and its two factories.
- **Entities**: `Author` and `Blog` are classes whose mutators
  (`UpdateDetails`, `Update`) assign fields in place and stamp
  `UpdatedAt` with a clock value passed in as `now`.
- **Configurations** gives the EF Core mappings as invariants of a
  committed store `Db`: keys, required columns, length bounds, the unique
  email index, the author foreign key, and the cascade on author delete.
- **Database** is the relational store behind the context. It applies a
  save's row commands all or nothing, and it refuses a row that breaks the
  schema with the SQL Server error number it would raise (515, 2628, 2627,
  2601, 547), or with a concurrency failure when updating or deleting a row
  that is missing.
- **GenericRepository**, **AuthorRepository** and **BlogRepository** are
  the queries. They are functions of the committed store.
- **Persistence** covers the unit of work. `UnitOfWork` is a class that
  holds the committed rows, the change tracker (entries that refer to the
  entity objects, each with a state and a snapshot) and the `_transaction`
  field:
  - `Add`, `Update` and `Delete` stage changes.
  - `SaveChanges` sends the tracked changes to the database and returns
    the affected-row count, or raises the domain exception that
    `SaveChangesAsync`'s catch clauses translate the failure into.
  - Begin, Commit, Rollback and Dispose drive a transaction state machine.
- **Each command handler**
  (`CreateAuthorCommand`, `NestedCreateAuthorCommand`,
  `UpdateAuthorCommand`, `DeleteAuthorCommand`, `CreateBlogCommand`) is a
  method over the unit of work. Its whole effect (answer or exception, the
  new committed store, the number of saves) is proved equal to a pure
  `Expected` function, and the handler's promises are lemmas about that
  function. Dafny has no exceptions, so a handler ends in
  `Outcome = Returned(Result) | Raised(Exc)`.
- **Each query handler** (`GetAuthorByIdQuery`, `GetAllAuthorsQuery`,
  `GetBlogByIdQuery`, `GetAllBlogsQuery`) is a pure function, so it
  cannot change the store.
- **Validators** returns the failures each rule set reports, in rule order.
- **ExceptionHandling** is the middleware's first-match classification of
  an exception into a status code (section 15 of RFC 9110) and a body.
- **Responses** composes the save-failure translation with that
  classification, and the validators with the handlers.

Strings that C# allows to be null are `Option<string>`. That way
`IsRequired` and `NotEmpty` can say something about null.

## Model

| member | source | states |
|---|---|---|
| Common.Success | BlogSystem.Domain/Common/Result.cs:13-22 | a success of factory shape carrying exactly the given data, message and status |
| Common.Failure | BlogSystem.Domain/Common/Result.cs:24-33 | a failure of factory shape, no data, exactly the given errors, status and message |
| Common.SuccessDefaults | BlogSystem.Domain/Common/Result.cs:13 | omitted arguments give message "Success" and status 200 |
| Common.FailureDefaults | BlogSystem.Domain/Common/Result.cs:24 | omitted arguments give status 400 and message "Operation failed" |
| Common.FactoryShapeIsComplete | BlogSystem.Domain/Common/Result.cs:5-11 | every envelope that can exist is what one of the two factories returns for its own fields; a success has no errors |
| Common.EmptyFailureAccepted | BlogSystem.Domain/Common/Result.cs:24-33 | an empty error list and any status are accepted as they are |
| Entities.Author.constructor | BlogSystem.Domain/Entities/Author.cs:16-21 | stores name, email and imageUrl exactly (imageUrl defaults to null) and owns no blogs |
| Entities.Author.UpdateDetails | BlogSystem.Domain/Entities/Author.cs:23-29 | overwrites Name, Email and ImageUrl (null when omitted), sets UpdatedAt to now, leaves Id, CreatedAt and Blogs alone |
| Entities.UpdatedDetailsOverwrites | BlogSystem.Domain/Entities/Author.cs:23-29 | a second UpdateDetails leaves no trace of the first |
| Entities.Blog.constructor | BlogSystem.Domain/Entities/Blog.cs:14-19 | stores title, body and authorId exactly; the Author navigation is unset |
| Entities.Blog.Update | BlogSystem.Domain/Entities/Blog.cs:21-26 | overwrites Title and Body, sets UpdatedAt to now, never changes AuthorId or Author |
| Entities.Author.Materialize | BlogSystem.Infrastructure/Repositories/GenericRepository.cs:19-22 | an author loaded from the store has exactly the stored row |
| Entities.Blog.Materialize | BlogSystem.Infrastructure/Repositories/GenericRepository.cs:19-22 | a blog loaded from the store has exactly the stored row and no navigation |
| Configurations.AuthorsKeyed | BlogSystem.Infrastructure/Data/Configurations/AuthorConfiguration.cs:11 | each author is stored under its own Id (the primary key); Database.ApplyKeepsConsistent and Database.CommitKeepsConsistent show every accepted save keeps it |
| Configurations.BlogsKeyed | BlogSystem.Infrastructure/Data/Configurations/BlogConfiguration.cs:9 | each blog is stored under its own Id (the primary key); kept by every accepted save |
| Configurations.UniqueEmails | BlogSystem.Infrastructure/Data/Configurations/AuthorConfiguration.cs:21-22 | no two stored authors share an email (the unique index); Database.DuplicateEmailInsertRefused shows a second author with a used email is refused with 2601 |
| Configurations.AuthorColumnsFit | BlogSystem.Infrastructure/Data/Configurations/AuthorConfiguration.cs:13-25 | Name required and at most 100, Email required and at most 255, ImageUrl optional and at most 500; Database.AuthorColumnsCheck refuses a row that breaks it |
| Configurations.BlogColumnsFit | BlogSystem.Infrastructure/Data/Configurations/BlogConfiguration.cs:11-17 | Title required and at most 200, Body required and unbounded; Database.BlogColumnsCheck refuses a row that breaks it |
| Configurations.BlogsHaveAuthors | BlogSystem.Infrastructure/Data/Configurations/BlogConfiguration.cs:19-21 | every stored blog names a stored author (the foreign key); Database.OrphanBlogInsertRefused shows an orphan insert is refused with 547 |
| Configurations.Consistent | BlogSystem.Infrastructure/Data/Configurations/AuthorConfiguration.cs:11-30 | the conjunction of every key, column, index and foreign-key constraint of both configurations; the Keeps lemmas show every accepted save and the cascade preserve it |
| Configurations.CascadeDeleteAuthor | BlogSystem.Infrastructure/Data/Configurations/AuthorConfiguration.cs:27-30 | removes the author and exactly the blogs whose AuthorId names it; the others are untouched |
| Configurations.CascadeKeepsConsistent | BlogSystem.Infrastructure/Data/Configurations/AuthorConfiguration.cs:27-30 | the cascade keeps every key, column, unique and foreign-key constraint |
| Configurations.EmptyIsConsistent | BlogSystem.Infrastructure/Data/Configurations/BlogConfiguration.cs:9-21 | the empty store meets every constraint |
| Database.AuthorColumnsCheck | BlogSystem.Infrastructure/Data/Configurations/AuthorConfiguration.cs:13-25 | an author row is refused exactly when a required column is null or a column is over its length |
| Database.BlogColumnsCheck | BlogSystem.Infrastructure/Data/Configurations/BlogConfiguration.cs:11-17 | a blog row is refused exactly when Title or Body is null or Title is over 200 characters |
| Database.Apply | BlogSystem.Infrastructure/Data/Configurations/AuthorConfiguration.cs:11-30 | an accepted row command affects one row |
| Database.Commit | BlogSystem.Infrastructure/Repositories/UnitOfWork.cs:29 | an accepted save affects one row per command |
| Database.CommitOne | BlogSystem.Infrastructure/Repositories/UnitOfWork.cs:29 | a save of one command is that command's outcome |
| Database.PutAuthorKeepsConsistent | BlogSystem.Infrastructure/Data/Configurations/AuthorConfiguration.cs:11-25 | storing an author row that passes the checks keeps the schema |
| Database.PutBlogKeepsConsistent | BlogSystem.Infrastructure/Data/Configurations/BlogConfiguration.cs:9-21 | storing a blog row that passes the checks keeps the schema |
| Database.ApplyKeepsConsistent | BlogSystem.Infrastructure/Data/Configurations/AuthorConfiguration.cs:11-30 | every accepted command keeps the schema |
| Database.CommitKeepsConsistent | BlogSystem.Infrastructure/Data/Configurations/BlogConfiguration.cs:9-21 | any accepted save keeps the schema (by induction on the commands) |
| Database.DuplicateEmailInsertRefused | BlogSystem.Infrastructure/Data/Configurations/AuthorConfiguration.cs:21-22 | inserting an author whose email another author has is refused with error 2601 |
| Database.OrphanBlogInsertRefused | BlogSystem.Infrastructure/Data/Configurations/BlogConfiguration.cs:19-21 | inserting a blog whose AuthorId names no author is refused with error 547 |
| GenericRepository.LeastOf | BlogSystem.Infrastructure/Repositories/GenericRepository.cs:24-27 | every non-empty set of Ids has a least element (used to order GetAll) |
| GenericRepository.Min | BlogSystem.Infrastructure/Repositories/GenericRepository.cs:24-27 | the least Id of a non-empty set |
| GenericRepository.SortedIds | BlogSystem.Infrastructure/Repositories/GenericRepository.cs:24-27 | lists every Id of the set once, strictly ascending |
| GenericRepository.RowsAt | BlogSystem.Infrastructure/Repositories/GenericRepository.cs:24-27 | the stored rows under the given Ids, in that order |
| GenericRepository.GetAll | BlogSystem.Infrastructure/Repositories/GenericRepository.cs:24-27 | one entry per stored entity; every stored entity and nothing else |
| GenericRepository.GetById | BlogSystem.Infrastructure/Repositories/GenericRepository.cs:19-22 | FindAsync by primary key: the entity stored under the Id, or nothing; its partners GetByIdFindsId and ExistsIffGetById state that the result carries the Id and agrees with Exists |
| GenericRepository.Exists | BlogSystem.Infrastructure/Repositories/GenericRepository.cs:47-50 | AnyAsync on the Id column; its partners ExistsIffGetById and AuthorRepository.AuthorExistsIffStored state that it holds exactly when the Id is stored |
| GenericRepository.GetByIdFindsId | BlogSystem.Infrastructure/Repositories/GenericRepository.cs:19-22 | the result is a stored entity whose Id is the argument, or nothing when no entity has that Id |
| GenericRepository.ExistsIffGetById | BlogSystem.Infrastructure/Repositories/GenericRepository.cs:47-50 | Exists holds exactly when GetById returns something |
| GenericRepository.AbsentIdIsInvisible | BlogSystem.Infrastructure/Repositories/GenericRepository.cs:19-50 | an Id not stored is seen by none of GetById, GetAll and Exists |
| AuthorRepository.AuthorExistsIffStored | BlogSystem.Infrastructure/Repositories/GenericRepository.cs:47-50 | ExistsAsync on authors holds exactly when the Id is stored |
| AuthorRepository.EmailExists | BlogSystem.Infrastructure/Repositories/AuthorRepository.cs:11-15 | AnyAsync on the Email column; its partners GetByEmailIffEmailExists and UnusedEmailIsFree state that it holds exactly when some stored author has that email |
| AuthorRepository.FirstWithEmail | BlogSystem.Infrastructure/Repositories/AuthorRepository.cs:19-21 | the first author with the email, or nothing when none has it |
| AuthorRepository.GetByEmail | BlogSystem.Infrastructure/Repositories/AuthorRepository.cs:17-22 | a stored author whose Email is the argument, or nothing |
| AuthorRepository.GetByEmailIffEmailExists | BlogSystem.Infrastructure/Repositories/AuthorRepository.cs:11-22 | GetByEmail returns something exactly when EmailExists holds |
| AuthorRepository.GetByEmailIsTheOwner | BlogSystem.Infrastructure/Repositories/AuthorRepository.cs:17-22 | under the unique-email index the result is the single author with that email |
| AuthorRepository.UnusedEmailIsFree | BlogSystem.Infrastructure/Repositories/AuthorRepository.cs:11-15 | when EmailExists is false no stored author has the email |
| BlogRepository.IncludeAuthor | BlogSystem.Infrastructure/Repositories/BlogRepository.cs:13-23 | each blog with its stored author; blogs without one are dropped; nothing is dropped when every blog has one |
| BlogRepository.OfAuthor | BlogSystem.Infrastructure/Repositories/BlogRepository.cs:15 | keeps exactly the blogs with that AuthorId |
| BlogRepository.GetBlogsByAuthorId | BlogSystem.Infrastructure/Repositories/BlogRepository.cs:11-17 | the author's blogs with Author included; its partners BlogsByAuthorAreTheirs and BlogsByAuthorAreAllTheirs state that exactly the stored blogs of that author are returned |
| BlogRepository.GetBlogsWithAuthors | BlogSystem.Infrastructure/Repositories/BlogRepository.cs:19-24 | every blog with Author included; its partners BlogsWithAuthorsCount, BlogsWithAuthorsListsBlog and BlogsWithAuthorsAreMatched state one entry per stored blog, each paired with its own author |
| BlogRepository.StoredBlogsAreAuthored | BlogSystem.Infrastructure/Data/Configurations/BlogConfiguration.cs:19-21 | with the foreign key intact, stored blogs all name a stored author |
| BlogRepository.OfAuthorKeepsStored | BlogSystem.Infrastructure/Repositories/BlogRepository.cs:13-16 | the filtered rows are stored blogs |
| BlogRepository.BlogsByAuthorAreTheirs | BlogSystem.Infrastructure/Repositories/BlogRepository.cs:11-17 | GetBlogsByAuthorId returns only stored blogs of that author (a subset of all blogs) |
| BlogRepository.BlogsByAuthorAreAllTheirs | BlogSystem.Infrastructure/Repositories/BlogRepository.cs:11-17 | every stored blog of the author is returned, with that author |
| BlogRepository.BlogsWithAuthorsCount | BlogSystem.Infrastructure/Repositories/BlogRepository.cs:19-24 | with the foreign key intact, one entry per stored blog |
| BlogRepository.BlogsWithAuthorsListsBlog | BlogSystem.Infrastructure/Repositories/BlogRepository.cs:19-24 | every stored blog is returned with its author |
| BlogRepository.BlogsWithAuthorsAreMatched | BlogSystem.Infrastructure/Repositories/BlogRepository.cs:19-24 | each returned blog is stored and carries the author whose Id is its AuthorId |
| BlogRepository.BlogWithAuthorMatched | BlogSystem.Infrastructure/Repositories/BlogRepository.cs:19-24 | the same for one position of the list: the blog there is stored and its author's Id is its AuthorId |
| Persistence.TranslateSaveFailure | BlogSystem.Infrastructure/Repositories/UnitOfWork.cs:31-58 | 515 becomes a constraint violation, 2601/2627 a duplicate entry, any other SQL number or a non-SQL update failure a database operation error, a concurrency failure a concurrency failure, a timeout a connection error; each with its message: the SQL text with its number appended for an unexpected SQL error, the update failure's text for a non-SQL one |
| Persistence.TranslationNeverLeaksDbException | BlogSystem.Infrastructure/Repositories/UnitOfWork.cs:35-53 | no save failure reaches the caller as a raw SqlException or DbException |
| Persistence.EntryChanges | BlogSystem.Infrastructure/Repositories/GenericRepository.cs:29-45 | Added sends an insert of the current row, Deleted a delete, Modified an update of the current row, Unchanged an update of the current row exactly when it differs from its snapshot and nothing otherwise |
| Persistence.Changes | BlogSystem.Infrastructure/Repositories/UnitOfWork.cs:29 | the commands a save sends, entry by entry |
| Persistence.AcceptAll | BlogSystem.Infrastructure/Repositories/UnitOfWork.cs:29 | after a save every surviving entry is Unchanged with its snapshot taken from the current row; an entity that was not Deleted is still tracked, and every entity still tracked had an entry that was not Deleted |
| Persistence.Stage | BlogSystem.Infrastructure/Repositories/GenericRepository.cs:29-45 | an untracked entity gets a new entry at the end; for a tracked one only its first entry is restaged (an Added one stays Added, or is detached on Remove; any other takes the new state) and every other entry stays where it was |
| Persistence.SingleAddSendsOneInsert | BlogSystem.Infrastructure/Repositories/GenericRepository.cs:29-33 | a fresh context holding one Add sends exactly one insert of that entity |
| Persistence.RemoveLoadedSendsOneDelete | BlogSystem.Infrastructure/Repositories/GenericRepository.cs:41-45 | deleting a loaded author sends exactly one delete |
| Persistence.RemoveAddedSendsNothing | BlogSystem.Infrastructure/Repositories/GenericRepository.cs:41-45 | deleting an entity that was only added sends nothing |
| Persistence.BeginReplacesWithoutEnding | BlogSystem.Infrastructure/Repositories/UnitOfWork.cs:61-64 | Begin makes a new transaction active and ends none, so an existing one is abandoned |
| Persistence.EndingClearsTransaction | BlogSystem.Infrastructure/Repositories/UnitOfWork.cs:66-84 | Commit and Rollback end exactly the active transaction and leave none; with none active they do nothing |
| Persistence.TxStep | BlogSystem.Infrastructure/Repositories/UnitOfWork.cs:61-90 | one transaction call: the history of ended transactions only grows, by at most one entry, and numbers are allocated one at a time; its partners BeginReplacesWithoutEnding, EndingClearsTransaction and TxStepKeepsWellFormed give each call's effect |
| Persistence.TxStepKeepsWellFormed | BlogSystem.Infrastructure/Repositories/UnitOfWork.cs:61-84 | Begin, Commit and Rollback keep the numbering well formed, so none of them ends a transaction twice; Dispose is final (the context is unusable afterwards) and is left out of the lemma |
| Persistence.SaveResult | BlogSystem.Infrastructure/Repositories/UnitOfWork.cs:25-59 | a save reports its affected rows or the translated exception |
| Persistence.SaveReportsRowCount | BlogSystem.Infrastructure/Repositories/UnitOfWork.cs:29 | a successful save reports one row per pending command; a failed one leaves the rows as they were |
| Persistence.UnitOfWork.constructor | BlogSystem.Infrastructure/Repositories/UnitOfWork.cs:15-20 | a context over a consistent store, tracking nothing, with no transaction |
| Persistence.UnitOfWork.AddAuthor | BlogSystem.Infrastructure/Repositories/GenericRepository.cs:29-33 | stages the author as Added and returns the very object given; nothing is written |
| Persistence.UnitOfWork.UpdateAuthor | BlogSystem.Infrastructure/Repositories/GenericRepository.cs:35-39 | stages the author's new state; no other entry and no stored row changes |
| Persistence.UnitOfWork.DeleteAuthor | BlogSystem.Infrastructure/Repositories/GenericRepository.cs:41-45 | stages the removal; nothing is written before a save |
| Persistence.UnitOfWork.AddBlog | BlogSystem.Infrastructure/Repositories/GenericRepository.cs:29-33 | stages the blog as Added and returns it |
| Persistence.UnitOfWork.UpdateBlog | BlogSystem.Infrastructure/Repositories/GenericRepository.cs:35-39 | stages the blog's new state; no other entry and no stored row changes |
| Persistence.UnitOfWork.DeleteBlog | BlogSystem.Infrastructure/Repositories/GenericRepository.cs:41-45 | stages the blog's removal |
| Persistence.UnitOfWork.FindAuthor | BlogSystem.Infrastructure/Repositories/GenericRepository.cs:19-22 | a new object holding the stored row, tracked as Unchanged, or null when the Id is not stored; every tracked blog with that AuthorId then has its Author navigation set to it, and nothing else about tracked blogs changes |
| Persistence.UnitOfWork.FindBlog | BlogSystem.Infrastructure/Repositories/GenericRepository.cs:19-22 | the same for blogs |
| Persistence.UnitOfWork.SaveChanges | BlogSystem.Infrastructure/Repositories/UnitOfWork.cs:25-59 | applies the tracked changes all or nothing and returns the row count; on failure raises the translated exception and changes nothing |
| Persistence.UnitOfWork.BeginTransaction | BlogSystem.Infrastructure/Repositories/UnitOfWork.cs:61-64 | the transaction field steps as Begin prescribes |
| Persistence.UnitOfWork.CommitTransaction | BlogSystem.Infrastructure/Repositories/UnitOfWork.cs:66-74 | the active transaction is committed and cleared, or nothing happens |
| Persistence.UnitOfWork.RollbackTransaction | BlogSystem.Infrastructure/Repositories/UnitOfWork.cs:76-84 | the active transaction is rolled back and cleared, or nothing happens |
| Persistence.UnitOfWork.Dispose | BlogSystem.Infrastructure/Repositories/UnitOfWork.cs:86-90 | disposes the transaction when present, then the context |
| Mapping.AuthorDtoRoundTrip | BlogSystem.Application/Mappings/AuthorMappingProfile.cs:11 | Author to AuthorDto and back are inverse field copies |
| Mapping.ToAuthorDto | BlogSystem.Application/Mappings/AuthorMappingProfile.cs:11 | Author to AuthorDto copies every field; AuthorDtoRoundTrip proves FromAuthorDto undoes it |
| Mapping.FromAuthorDto | BlogSystem.Application/Mappings/AuthorMappingProfile.cs:11 | the reverse map AuthorDto to Author; AuthorDtoRoundTrip proves ToAuthorDto undoes it |
| Mapping.NewAuthorRow | BlogSystem.Application/Mappings/AuthorMappingProfile.cs:10 | CreateAuthorDto to Author through the constructor: the DTO's name, email and image URL with a new Id, the creation time and no update time; CreateAuthorCommand.UnusedEmailInsertsOne states that this is the row inserted |
| Mapping.NewBlogRow | BlogSystem.Application/Features/Blogs/Commands/CreateBlogCommand.cs:31 | CreateBlogDto to Blog as the constructor would build it: title, body and AuthorId with a new Id and time; CreateBlogCommand.KnownAuthorInsertsOne states that this is the row inserted (no declared profile covers this map, see Left out) |
| Mapping.ToBlogDto | BlogSystem.Application/Mappings/BlogMappingProfile.cs:12 | AuthorName is the loaded author's Name, or null without one |
| Mapping.BlogDtoKeepsBlog | BlogSystem.Application/Mappings/BlogMappingProfile.cs:11-13 | the DTO determines the blog: every blog field is copied |
| TextFormat.GuidText | BlogSystem.Application/Features/Authors/Commands/UpdateAuthorCommand/UpdateAuthorCommand.cs:28 | an Id interpolates as its 36-character text |
| TextFormat.IntText | BlogSystem.Infrastructure/Repositories/UnitOfWork.cs:47 | the Int32 text of the error number interpolated into the operation error: a minus sign for a negative number, then its decimal digits |
| CreateAuthorCommand.AfterSave | BlogSystem.Application/Features/Authors/Commands/CreateAuthorCommand.cs:33-40 | a count of 0 gives the failure 500 "Failed to retrieve created author." with its one error and no data; any other count gives 201 "Created" with the created author's DTO |
| CreateAuthorCommand.Expected | BlogSystem.Application/Features/Authors/Commands/CreateAuthorCommand.cs:22-41 | the handler's whole effect on a store (answer or exception, new rows, saves); Handle is proved equal to it and the lemmas of this module state its cases |
| CreateAuthorCommand.Handle | BlogSystem.Application/Features/Authors/Commands/CreateAuthorCommand.cs:22-41 | answer, new store and save count are those of Expected; the context stays consistent |
| CreateAuthorCommand.UsedEmailIsConflict | BlogSystem.Application/Features/Authors/Commands/CreateAuthorCommand.cs:24-28 | a used email gives 409 with its error and message, no save, store unchanged |
| CreateAuthorCommand.UnusedEmailInsertsOne | BlogSystem.Application/Features/Authors/Commands/CreateAuthorCommand.cs:30-40 | otherwise one save; a returned answer stores exactly the mapped author; a raised one changes nothing |
| CreateAuthorCommand.NoZeroCountFailure | BlogSystem.Application/Features/Authors/Commands/CreateAuthorCommand.cs:33-36 | the save-count-0 failure is never answered: a save with one insert reports one row |
| CreateAuthorCommand.CreateKeepsConsistent | BlogSystem.Application/Features/Authors/Commands/CreateAuthorCommand.cs:24-31 | every path keeps the schema, emails unique included |
| CreateAuthorCommand.FittingNewAuthorIsCreated | BlogSystem.Application/Features/Authors/Commands/CreateAuthorCommand.cs:38-40 | a fitting author with an unused email and a fresh Id is answered 201 "Created" with the mapped author |
| CreateAuthorCommand.MissingNameIsConstraintViolation | BlogSystem.Application/Features/Authors/Commands/CreateAuthorCommand.cs:30-33 | a null Name reaches the database and comes back as a constraint violation |
| CreateAuthorCommand.ReusedIdIsDuplicateEntry | BlogSystem.Application/Features/Authors/Commands/CreateAuthorCommand.cs:30-33 | a stored Id comes back as a duplicate entry |
| NestedCreateAuthorCommand.Handle | BlogSystem.Application/Features/Authors/Commands/CreateAuthorCommand/CreateAuthorCommand.cs:22-38 | answer, new store and save count are those of Expected |
| NestedCreateAuthorCommand.Expected | BlogSystem.Application/Features/Authors/Commands/CreateAuthorCommand/CreateAuthorCommand.cs:22-38 | the handler's whole effect on a store; Handle is proved equal to it, and VariantsAgree relates it to CreateAuthorCommand.Expected |
| NestedCreateAuthorCommand.EveryOtherAnswerIsCreated | BlogSystem.Application/Features/Authors/Commands/CreateAuthorCommand/CreateAuthorCommand.cs:33-37 | every answer that is not 409 is 201 "Created" with the mapped author |
| NestedCreateAuthorCommand.EmailCheckedFirst | BlogSystem.Application/Features/Authors/Commands/CreateAuthorCommand/CreateAuthorCommand.cs:24-31 | with the email in use nothing is added or saved and 409 is answered |
| NestedCreateAuthorCommand.VariantsAgree | BlogSystem.Application/Features/Authors/Commands/CreateAuthorCommand/CreateAuthorCommand.cs:33 | ignoring the save count changes nothing: both variants have the same effect on every input |
| UpdateAuthorCommand.AfterSave | BlogSystem.Application/Features/Authors/Commands/UpdateAuthorCommand/UpdateAuthorCommand.cs:44-52 | a count of 0 gives the failure 500 "Internal Server Error" with "Error: Cannot save updated author in DB" and no data; any other count gives 204 "Updated" with the updated author's DTO |
| UpdateAuthorCommand.Detected | BlogSystem.Application/Features/Authors/Commands/UpdateAuthorCommand/UpdateAuthorCommand.cs:38-44 | change detection on the loaded author: at most one command, none exactly when UpdateDetails left the row as loaded, and otherwise an update to the new row |
| UpdateAuthorCommand.Expected | BlogSystem.Application/Features/Authors/Commands/UpdateAuthorCommand/UpdateAuthorCommand.cs:22-53 | the handler's whole effect on a store; Handle is proved equal to it and the lemmas of this module state its cases |
| UpdateAuthorCommand.Handle | BlogSystem.Application/Features/Authors/Commands/UpdateAuthorCommand/UpdateAuthorCommand.cs:22-53 | answer, new store and save count are those of Expected |
| UpdateAuthorCommand.UnknownIdIsNotFound | BlogSystem.Application/Features/Authors/Commands/UpdateAuthorCommand/UpdateAuthorCommand.cs:25-28 | an unknown Id raises NotFound naming the Id; no save, store unchanged |
| UpdateAuthorCommand.UsedEmailIsConflict | BlogSystem.Application/Features/Authors/Commands/UpdateAuthorCommand/UpdateAuthorCommand.cs:31-35 | an email any author has gives 409 with its error and message; nothing changes |
| UpdateAuthorCommand.OwnEmailIsConflict | BlogSystem.Application/Features/Authors/Commands/UpdateAuthorCommand/UpdateAuthorCommand.cs:31 | resubmitting the author's own email gives 409 |
| UpdateAuthorCommand.NoZeroCountFailure | BlogSystem.Application/Features/Authors/Commands/UpdateAuthorCommand/UpdateAuthorCommand.cs:44-46 | the save-count-0 failure is never answered: past the email check the email always changes |
| UpdateAuthorCommand.SuccessUpdatesOnlyTarget | BlogSystem.Application/Features/Authors/Commands/UpdateAuthorCommand/UpdateAuthorCommand.cs:38-52 | a success writes UpdateDetails' result for the target alone, answers 204 "Updated" with it, after one save |
| UpdateAuthorCommand.UpdateKeepsConsistent | BlogSystem.Application/Features/Authors/Commands/UpdateAuthorCommand/UpdateAuthorCommand.cs:25-44 | every path keeps the schema |
| UpdateAuthorCommand.OverlongNameIsOperationError | BlogSystem.Application/Features/Authors/Commands/UpdateAuthorCommand/UpdateAuthorCommand.cs:38-44 | a Name over 100 characters passes the handler and is raised as a database operation error |
| DeleteAuthorCommand.Handle | BlogSystem.Application/Features/Authors/Commands/DeleteAuthorCommand/DeleteAuthorCommand.cs:22-38 | answer, new store and save count are those of Expected |
| DeleteAuthorCommand.Expected | BlogSystem.Application/Features/Authors/Commands/DeleteAuthorCommand/DeleteAuthorCommand.cs:22-38 | the handler's whole effect on a store; Handle is proved equal to it and the lemmas of this module state its cases |
| DeleteAuthorCommand.UnknownIdIsNotFound | BlogSystem.Application/Features/Authors/Commands/DeleteAuthorCommand/DeleteAuthorCommand.cs:25-28 | an unknown Id raises NotFound "The author already not found in DB"; no delete, no save |
| DeleteAuthorCommand.FoundAuthorIsDeleted | BlogSystem.Application/Features/Authors/Commands/DeleteAuthorCommand/DeleteAuthorCommand.cs:31-37 | a stored author is always deleted with its blogs in one save and answered 204 "Deleted" with the author itself |
| DeleteAuthorCommand.DeletedIdIsGone | BlogSystem.Application/Features/Authors/Commands/DeleteAuthorCommand/DeleteAuthorCommand.cs:31-34 | afterwards the Id is seen by neither GetById nor Exists, other authors are unchanged, no blog names it, and the store is consistent |
| GetAuthorByIdQuery.Handle | BlogSystem.Application/Features/Authors/Queries/GetAuthorByIdQuery.cs:23-30 | raises NotFound "Author not found" exactly when the Id is not stored, else 200 "Author retrieved successfully" with the mapped author |
| GetAuthorByIdQuery.FoundAuthorIsRequested | BlogSystem.Application/Features/Authors/Queries/GetAuthorByIdQuery.cs:28-30 | the returned DTO has the requested Id and maps back to the stored author |
| GetAllAuthorsQuery.ToDtos | BlogSystem.Application/Features/Authors/Queries/GetAllAuthorsQuery.cs:25 | one mapped DTO per author, in order |
| GetAllAuthorsQuery.Handle | BlogSystem.Application/Features/Authors/Queries/GetAllAuthorsQuery.cs:23-27 | always success 200 "Success" with one DTO per stored author |
| GetAllAuthorsQuery.OneDtoPerAuthor | BlogSystem.Application/Features/Authors/Queries/GetAllAuthorsQuery.cs:23-25 | every stored author appears, and every DTO is a stored author |
| GetAllAuthorsQuery.StoredAuthorsListed | BlogSystem.Application/Features/Authors/Queries/GetAllAuthorsQuery.cs:23-25 | one direction of OneDtoPerAuthor: a given stored author's DTO is in the list |
| GetAllAuthorsQuery.ListedAuthorsStored | BlogSystem.Application/Features/Authors/Queries/GetAllAuthorsQuery.cs:23-25 | the other direction: the DTO at a given position is a stored author's |
| GetAllAuthorsQuery.EmptyStoreIsEmptySuccess | BlogSystem.Application/Features/Authors/Queries/GetAllAuthorsQuery.cs:23-27 | an empty store gives success with an empty list |
| GetBlogByIdQuery.Handle | BlogSystem.Application/Features/Blogs/Queries/GetBlogByIdQuery.cs:30-37 | raises NotFound "blod is not found" exactly when the Id is not stored, else 200 "Success" |
| GetBlogByIdQuery.DtoCopiesBlog | BlogSystem.Application/Features/Blogs/Queries/GetBlogByIdQuery.cs:35 | the DTO copies Id, Title, Body, AuthorId, CreatedAt and UpdatedAt, with AuthorName "Ali" |
| GetBlogByIdQuery.AuthorNameIgnoresAuthor | BlogSystem.Application/Features/Blogs/Queries/GetBlogByIdQuery.cs:35 | any two blogs get the same AuthorName, whatever their authors |
| GetAllBlogsQuery.ToDtos | BlogSystem.Application/Features/Blogs/Queries/GetAllBlogsQuery.cs:26 | one DTO per blog, with its loaded author's name |
| GetAllBlogsQuery.Handle | BlogSystem.Application/Features/Blogs/Queries/GetAllBlogsQuery.cs:24-29 | always success 200 "Blogs retrieved successfully" |
| GetAllBlogsQuery.OneDtoPerBlog | BlogSystem.Application/Features/Blogs/Queries/GetAllBlogsQuery.cs:24-26 | with the foreign key intact, one DTO per stored blog, each stored blog present |
| GetAllBlogsQuery.StoredBlogListed | BlogSystem.Application/Features/Blogs/Queries/GetAllBlogsQuery.cs:24-26 | one step of OneDtoPerBlog: a given stored blog's DTO, with its author, is in the list |
| GetAllBlogsQuery.AuthorNameIsTheAuthors | BlogSystem.Application/Features/Blogs/Queries/GetAllBlogsQuery.cs:26 | each DTO's AuthorName is the Name of the author its AuthorId names |
| CreateBlogCommand.Handle | BlogSystem.Application/Features/Blogs/Commands/CreateBlogCommand.cs:23-42 | answer, new store and save count are those of Expected; the DTO is mapped from the added blog after the author lookup has fixed up its navigation |
| CreateBlogCommand.Expected | BlogSystem.Application/Features/Blogs/Commands/CreateBlogCommand.cs:23-42 | the handler's whole effect on a store; Handle is proved equal to it and the lemmas of this module state its cases |
| CreateBlogCommand.UnknownAuthorIsValidationError | BlogSystem.Application/Features/Blogs/Commands/CreateBlogCommand.cs:26-29 | an AuthorId naming no author raises a validation error "author not found"; nothing added or saved |
| CreateBlogCommand.KnownAuthorInsertsOne | BlogSystem.Application/Features/Blogs/Commands/CreateBlogCommand.cs:31-41 | otherwise one save; a returned answer stores exactly the mapped blog and is 201 "Blog created successfully" with the blog and its author mapped |
| CreateBlogCommand.FittingBlogIsCreated | BlogSystem.Application/Features/Blogs/Commands/CreateBlogCommand.cs:33-41 | a fitting blog for a stored author under a fresh Id is always created with 201 |
| CreateBlogCommand.CreateKeepsForeignKey | BlogSystem.Application/Features/Blogs/Commands/CreateBlogCommand.cs:26-33 | every added blog names a stored author and the schema is kept |
| CreateBlogCommand.CreatedDtoNamesAuthor | BlogSystem.Application/Features/Blogs/Commands/CreateBlogCommand.cs:36-39 | the returned DTO is the new blog field by field, and its AuthorName is the stored author's Name, reached through the navigation the author lookup fixed up |
| Validators.Check | BlogSystem.Application/Features/Authors/Commands/CreateAuthorCommandValidator.cs:14-16 | a rule reports nothing when it holds, else one failure on its property |
| Validators.On | BlogSystem.Application/Features/Authors/Commands/CreateAuthorCommandValidator.cs:14-27 | the failures reported on one property |
| Validators.OnConcat | BlogSystem.Application/Features/Authors/Commands/CreateAuthorCommandValidator.cs:14-27 | selecting a property distributes over the rule chains |
| Validators.OnCheck | BlogSystem.Application/Features/Authors/Commands/CreateAuthorCommandValidator.cs:14-16 | a rule reports only on its own property |
| Validators.NameFailures | BlogSystem.Application/Features/Authors/Commands/CreateAuthorCommandValidator.cs:14-16 | the Name chain: NotEmpty then MaximumLength(100), both run; NameFailuresOnName and NameReportedIff state what it reports |
| Validators.EmailFailures | BlogSystem.Application/Features/Authors/Commands/CreateAuthorCommandValidator.cs:18-21 | the Email chain: NotEmpty, EmailAddress, MaximumLength(255), all run; EmailFailuresNotOnName states where they are reported |
| Validators.ImageUrlFailures | BlogSystem.Application/Features/Authors/Commands/CreateAuthorCommandValidator.cs:23-27 | the ImageUrl chain, skipped for a null or empty URL; EmptyImageUrlNotChecked and ImageUrlFailuresNotOnName state its guard and property |
| Validators.ValidateCreateAuthor | BlogSystem.Application/Features/Authors/Commands/CreateAuthorCommandValidator.cs:9-12 | a null DTO gives the one failure "Author data is required." and no field rule runs |
| Validators.CreateAuthorAcceptedIff | BlogSystem.Application/Features/Authors/Commands/CreateAuthorCommandValidator.cs:14-27 | a DTO is accepted exactly when Name and Email are non-blank and within 100 and 255, Email is well formed, and a non-empty ImageUrl is within 500 and well formed |
| Validators.CreateAuthorAcceptedFitsColumns | BlogSystem.Application/Features/Authors/Commands/CreateAuthorCommandValidator.cs:14-24 | an accepted DTO meets the author column bounds |
| Validators.NameFailuresOnName | BlogSystem.Application/Features/Authors/Commands/CreateAuthorCommandValidator.cs:14-16 | the Name rules report on Name only |
| Validators.EmailFailuresNotOnName | BlogSystem.Application/Features/Authors/Commands/CreateAuthorCommandValidator.cs:18-21 | the Email rules never report on Name |
| Validators.ImageUrlFailuresNotOnName | BlogSystem.Application/Features/Authors/Commands/CreateAuthorCommandValidator.cs:23-27 | the ImageUrl rules never report on Name |
| Validators.NameReportedIff | BlogSystem.Application/Features/Authors/Commands/CreateAuthorCommandValidator.cs:14-16 | Name is reported exactly when it is blank or over 100 characters |
| Validators.EmptyImageUrlNotChecked | BlogSystem.Application/Features/Authors/Commands/CreateAuthorCommandValidator.cs:27 | a null or empty ImageUrl triggers no ImageUrl rule |
| Validators.TitleFailures | BlogSystem.Application/Features/Blogs/Commands/CreateBlogCommandValidator.cs:9-11 | the Title chain: NotEmpty then MaximumLength(200); CreateBlogAcceptedIff states when it is empty |
| Validators.BodyFailures | BlogSystem.Application/Features/Blogs/Commands/CreateBlogCommandValidator.cs:13-15 | the Body chain: NotEmpty then MinimumLength(10), both run; BodyRulesRunInTurn states that an empty body fails both |
| Validators.ValidateCreateBlog | BlogSystem.Application/Features/Blogs/Commands/CreateBlogCommandValidator.cs:9-18 | failures are reported only on Title, Body and AuthorId |
| Validators.CreateBlogAcceptedIff | BlogSystem.Application/Features/Blogs/Commands/CreateBlogCommandValidator.cs:9-18 | accepted exactly when Title is non-blank and within 200, Body non-blank and at least 10, and AuthorId not the empty Guid |
| Validators.CreateBlogAcceptedFitsColumns | BlogSystem.Application/Features/Blogs/Commands/CreateBlogCommandValidator.cs:9-15 | an accepted DTO meets the Title and Body constraints of the blog table |
| Validators.BodyRulesRunInTurn | BlogSystem.Application/Features/Blogs/Commands/CreateBlogCommandValidator.cs:13-15 | both Body rules run: an empty body fails both, a whitespace body of 10 fails only the first |
| Validators.ValidateDeleteAuthor | BlogSystem.Application/Features/Authors/Commands/DeleteAuthorCommand/DeleteAuthorCommandValidator.cs:9-11 | only Id is inspected |
| Validators.DeleteRulesAgree | BlogSystem.Application/Features/Authors/Commands/DeleteAuthorCommand/DeleteAuthorCommandValidator.cs:10-11 | an Id is accepted exactly when it is not the empty Guid; the empty Guid fails both rules |
| ExceptionHandling.FailureTexts | BlogSystem.API/Middleware/GlobalExceptionHandlerMiddleware.cs:48 | one "PropertyName: ErrorMessage" text per failure, in order |
| ExceptionHandling.SqlReply | BlogSystem.API/Middleware/GlobalExceptionHandlerMiddleware.cs:73-113 | the nested switch on the SQL error number: 2601/2627 409 "Duplicate Entry", 1205 409 "Database Conflict", -2/2/53 500 "Database Connection Issue", any other 500 "Database Error"; ExceptionHandling.SqlClassifiedByNumber and ConflictSources state its cases |
| ExceptionHandling.HandleException | BlogSystem.API/Middleware/GlobalExceptionHandlerMiddleware.cs:41-182 | always a failure envelope of factory shape with no data and the response status as its status; validation lists its failures, every other case exactly one error |
| ExceptionHandling.ValidationIsBadRequest | BlogSystem.API/Middleware/GlobalExceptionHandlerMiddleware.cs:43-51 | a validation exception, whatever its failures, is answered 400 with message "Validation failed." and one "Property: message" text per failure |
| ExceptionHandling.DatabaseExceptionsAreInternalError | BlogSystem.API/Middleware/GlobalExceptionHandlerMiddleware.cs:115-131 | the connection and operation exceptions are answered 500 with their own fixed text and message, never the exception's message |
| ExceptionHandling.StatusIsAnError | BlogSystem.API/Middleware/GlobalExceptionHandlerMiddleware.cs:41-182 | the status is one of 400, 401, 404, 409, 500, 503 |
| ExceptionHandling.ServiceUnavailableOnlyForOtherDb | BlogSystem.API/Middleware/GlobalExceptionHandlerMiddleware.cs:73-170 | 503 arises exactly from a DbException that is not a SqlException |
| ExceptionHandling.SqlClassifiedByNumber | BlogSystem.API/Middleware/GlobalExceptionHandlerMiddleware.cs:73-111 | 2601, 2627 and 1205 give 409, every other number 500, never 503; the message is "Duplicate Entry" for 2601 and 2627, "Database Conflict" for 1205, "Database Connection Issue" for -2, 2 and 53, and "Database Error" otherwise |
| ExceptionHandling.ConflictSources | BlogSystem.API/Middleware/GlobalExceptionHandlerMiddleware.cs:76-159 | 409 arises exactly from a duplicate entry, a concurrency conflict or SQL 2601/2627/1205 |
| ExceptionHandling.BadRequestSources | BlogSystem.API/Middleware/GlobalExceptionHandlerMiddleware.cs:43-150 | 400 arises exactly from validation or a constraint violation, which carries its message |
| ExceptionHandling.UnmatchedIsInternalError | BlogSystem.API/Middleware/GlobalExceptionHandlerMiddleware.cs:171-179 | any other exception gives 500 with its own message as the one error |
| ExceptionHandling.MessageCarryingCases | BlogSystem.API/Middleware/GlobalExceptionHandlerMiddleware.cs:53-71 | Unauthorized gives 401 and NotFound 404, each with the message as its one error |
| Responses.SaveFailureStatus | BlogSystem.Infrastructure/Repositories/UnitOfWork.cs:31-58 | a failed save reaches the client as 409 exactly for a duplicate key or a concurrency conflict, 400 exactly for 515, 500 otherwise, never 503 |
| Responses.DuplicateKeyIsConflict | BlogSystem.Infrastructure/Repositories/UnitOfWork.cs:43-45 | a duplicate key becomes 409 "Duplicate Entry" with the translated message |
| Responses.NotNullIsInvalidData | BlogSystem.Infrastructure/Repositories/UnitOfWork.cs:41-42 | a NULL in a required column becomes 400 "Invalid Data" |
| Responses.ReusedAuthorIdIsConflict | BlogSystem.Application/Features/Authors/Commands/CreateAuthorCommand.cs:30-33 | creating an author under a stored Id is answered 409 |
| Responses.NamelessAuthorIsBadRequest | BlogSystem.Application/Features/Authors/Commands/CreateAuthorCommand.cs:30-33 | creating an author without a name is answered 400 |
| Responses.AcceptedAuthorIsCreated | BlogSystem.Application/Features/Authors/Commands/CreateAuthorCommandValidator.cs:9-27 | a validated DTO with an unused email and a fresh Id is created with 201 and stored |
| Responses.UnknownAuthorBlogIsEmptyBadRequest | BlogSystem.Application/Features/Blogs/Commands/CreateBlogCommand.cs:26-29 | a blog for an unknown author is answered 400 "Validation failed." with an empty error list |
| Responses.AcceptedBlogIsCreated | BlogSystem.Application/Features/Blogs/Commands/CreateBlogCommandValidator.cs:9-18 | a validated blog for a stored author under a fresh Id is created with 201 |

## Left out

- HTTP hosting is not part of this model: controllers, dependency injection,
  MediatR dispatch, JSON serialisation, response writing and the
  middleware's `InvokeAsync`. The pipeline behaviour that runs the
  validators before a handler is also not part of this model, so validators
  and handlers are composed only in the Responses lemmas.
- Logging (the logger calls, the enrichers, the request-logging behaviour)
  has no state to specify.
- AutoMapper is modelled as plain field copies (`Mapping`). Only the
  AuthorName rule of the blog profile is kept.
- Mapping.NewBlogRow: no mapping profile declares a map from CreateBlogDto
  to Blog (the blog profile covers only Blog and BlogDto), so AutoMapper
  would refuse the call at CreateBlogCommand.cs line 31 and the middleware
  would answer 500. The model assumes the field-copy map the handler
  evidently expects. The 201 answers of CreateBlogCommand.Handle,
  CreateBlogCommand.KnownAuthorInsertsOne,
  CreateBlogCommand.FittingBlogIsCreated,
  CreateBlogCommand.CreatedDtoNamesAuthor and
  Responses.AcceptedBlogIsCreated rest on that assumption. The controller
  action that would call this handler is commented out.
- CreateBlogCommand.Handle: its success path assumes the CreateBlogDto to
  Blog map described above.
- `BaseEntity`, `NotFoundException` and `DuplicateEntryException` are not
  part of this model. Ids and creation times are parameters. The two
  exceptions are taken to be plain exceptions.
- Async execution and cancellation tokens: every call is sequential. The
  clock is a `now` parameter, and new Ids are parameters.
- The email-address check and the ImageUrl regex are library-defined. They
  are uninterpreted predicates passed in as `Formats`.
- String lengths count Dafny characters, not UTF-16 code units. Email
  comparison is exact equality, with no database collation.
- The database's order of `GetAll` is unspecified. The model lists rows by
  ascending Id.
- EF Core's change tracker is reduced to what the handlers use:
  - `FindAsync` always materialises a new object and does not return an
    already tracked instance (no identity resolution);
  - relationship fix-up is modelled in one direction only: loading an
    author (`FindAuthor`) points the Author navigation of every tracked
    blog with that AuthorId at it. Loading or adding a blog while its
    author is already tracked does not set the blog's navigation, and the
    author's Blogs collection is never filled. No handler path reaches
    those directions;
  - the tracker's contents after a handler returns are not stated.
- The Database model rejects a row only for the constraints the
  configurations declare. It never produces a timeout or an update failure
  without a SQL cause. The translation covers both, but no handler path
  reaches them.
- Transactions are a state machine only. Rollback does not undo saves made
  inside the transaction, and no handler uses transactions. Entity
  Framework's BeginTransactionAsync throws InvalidOperationException while
  a transaction is active; the model lets Begin overwrite the field, so the
  abandoned transaction of Persistence.BeginReplacesWithoutEnding cannot
  arise in the program.
- Every unit-of-work method requires a context that has not been disposed.
  Use after Dispose is not modelled.
- Each handler starts from a context that tracks nothing, as a
  request-scoped context does.
- CreateBlogCommand's DTO is never null in the model. The validator's
  behaviour on a null DTO is not modelled.
- Query handlers are functions of the store, so two calls with no mutation
  in between give equal outcomes by construction. No separate lemma states
  it.
- UpdatedDetails and UpdatedPost are value-level descriptions of the two
  mutators. Only the methods `Author.UpdateDetails` and `Blog.Update`
  carry the source's claims.
