/**
 * The relational store behind the context: the staged row changes that
 * SaveChanges sends, and how the database applies them against the schema of
 * Configurations, all or nothing, with the SQL Server error numbers it raises
 * when a constraint is broken.
 */
module Database {
  import opened Wrappers
  import opened Entities
  import opened Configurations

  /** SQL Server error numbers: NULL into a NOT NULL column, truncation, primary key, unique index, foreign key. */
  const SqlNotNull := 515
  const SqlTruncation := 2628
  const SqlPrimaryKey := 2627
  const SqlUniqueIndex := 2601
  const SqlForeignKey := 547

  /** EF's message when an update or delete touches no row. */
  const ExpectedOneRow := "The database operation was expected to affect 1 row(s), but actually affected 0 row(s)."

  /** One command SaveChanges sends to the database. */
  datatype RowChange =
    | InsertAuthor(author: AuthorRow)
    | UpdateAuthor(author: AuthorRow)
    | DeleteAuthor(id: Guid)
    | InsertBlog(blog: BlogRow)
    | UpdateBlog(blog: BlogRow)
    | DeleteBlog(id: Guid)

  /** The ways the context's own SaveChangesAsync can fail. */
  datatype DbFailure =
    | SqlFailure(number: int, message: string)   // DbUpdateException with a SqlException inside
    | UpdateFailure(message: string)             // DbUpdateException without one
    | ConcurrencyFailure(message: string)        // DbUpdateConcurrencyException
    | TimedOut                                   // TimeoutException

  datatype CommitResult = Committed(db: Db, rows: nat) | Rejected(failure: DbFailure)

  /** Some author other than the one stored under `except` has this email. */
  predicate EmailTaken(db: Db, email: Text, except: Guid)
  {
    exists k :: k in db.authors && k != except && db.authors[k].email == email
  }

  /** NOT NULL and length checks of an author row. */
  function AuthorColumnsCheck(a: AuthorRow): (r: Option<DbFailure>)
    ensures r.None? <==> AuthorColumnsFit(a)
  {
    if a.name.None? || a.email.None? then Some(SqlFailure(SqlNotNull, "Cannot insert the value NULL into a column of table 'Authors'."))
    else if !AuthorColumnsFit(a) then Some(SqlFailure(SqlTruncation, "String or binary data would be truncated in table 'Authors'."))
    else None
  }

  /** NOT NULL and length checks of a blog row. */
  function BlogColumnsCheck(b: BlogRow): (r: Option<DbFailure>)
    ensures r.None? <==> BlogColumnsFit(b)
  {
    if b.title.None? || b.body.None? then Some(SqlFailure(SqlNotNull, "Cannot insert the value NULL into a column of table 'Blogs'."))
    else if !BlogColumnsFit(b) then Some(SqlFailure(SqlTruncation, "String or binary data would be truncated in table 'Blogs'."))
    else None
  }

  const DuplicateEmail := SqlFailure(SqlUniqueIndex, "Cannot insert duplicate key row in object 'dbo.Authors' with unique index 'IX_Authors_Email'.")
  const MissingAuthor := SqlFailure(SqlForeignKey, "The statement conflicted with the FOREIGN KEY constraint 'FK_Blogs_Authors_AuthorId'.")

  /** One command against the current rows: the new rows and one affected row, or the error it raises. */
  function Apply(db: Db, c: RowChange): (r: CommitResult)
    ensures r.Committed? ==> r.rows == 1
  {
    match c
    case InsertAuthor(a) =>
      if AuthorColumnsCheck(a).Some? then Rejected(AuthorColumnsCheck(a).value)
      else if a.id in db.authors then Rejected(SqlFailure(SqlPrimaryKey, "Violation of PRIMARY KEY constraint 'PK_Authors'."))
      else if EmailTaken(db, a.email, a.id) then Rejected(DuplicateEmail)
      else Committed(db.(authors := db.authors[a.id := a]), 1)
    case UpdateAuthor(a) =>
      if a.id !in db.authors then Rejected(ConcurrencyFailure(ExpectedOneRow))
      else if AuthorColumnsCheck(a).Some? then Rejected(AuthorColumnsCheck(a).value)
      else if EmailTaken(db, a.email, a.id) then Rejected(DuplicateEmail)
      else Committed(db.(authors := db.authors[a.id := a]), 1)
    case DeleteAuthor(id) =>
      if id !in db.authors then Rejected(ConcurrencyFailure(ExpectedOneRow))
      else Committed(CascadeDeleteAuthor(db, id), 1)
    case InsertBlog(b) =>
      if BlogColumnsCheck(b).Some? then Rejected(BlogColumnsCheck(b).value)
      else if b.id in db.blogs then Rejected(SqlFailure(SqlPrimaryKey, "Violation of PRIMARY KEY constraint 'PK_Blogs'."))
      else if b.authorId !in db.authors then Rejected(MissingAuthor)
      else Committed(db.(blogs := db.blogs[b.id := b]), 1)
    case UpdateBlog(b) =>
      if b.id !in db.blogs then Rejected(ConcurrencyFailure(ExpectedOneRow))
      else if BlogColumnsCheck(b).Some? then Rejected(BlogColumnsCheck(b).value)
      else if b.authorId !in db.authors then Rejected(MissingAuthor)
      else Committed(db.(blogs := db.blogs[b.id := b]), 1)
    case DeleteBlog(id) =>
      if id !in db.blogs then Rejected(ConcurrencyFailure(ExpectedOneRow))
      else Committed(db.(blogs := db.blogs - {id}), 1)
  }

  /** The context's SaveChangesAsync: every command in order, all or nothing; it returns the rows affected. */
  function Commit(db: Db, cs: seq<RowChange>): (r: CommitResult)
    ensures r.Committed? ==> r.rows == |cs|
    decreases |cs|
  {
    if cs == [] then Committed(db, 0)
    else
      match Apply(db, cs[0])
      case Rejected(f) => Rejected(f)
      case Committed(db1, _) =>
        match Commit(db1, cs[1..])
        case Rejected(f) => Rejected(f)
        case Committed(db2, n) => Committed(db2, n + 1)
  }

  /** A single command commits exactly as it applies. */
  lemma CommitOne(db: Db, c: RowChange)
    ensures Commit(db, [c]) == Apply(db, c)
  {
    assert [c][1..] == [];
  }

  /** Storing an author row that passed the checks keeps the schema. */
  lemma PutAuthorKeepsConsistent(db: Db, a: AuthorRow)
    requires Consistent(db) && AuthorColumnsFit(a) && !EmailTaken(db, a.email, a.id)
    ensures Consistent(db.(authors := db.authors[a.id := a]))
  {
  }

  /** Storing a blog row that passed the checks keeps the schema. */
  lemma PutBlogKeepsConsistent(db: Db, b: BlogRow)
    requires Consistent(db) && BlogColumnsFit(b) && b.authorId in db.authors
    ensures Consistent(db.(blogs := db.blogs[b.id := b]))
  {
  }

  /** Each accepted command keeps every constraint of the schema. */
  lemma ApplyKeepsConsistent(db: Db, c: RowChange)
    requires Consistent(db)
    ensures Apply(db, c).Committed? ==> Consistent(Apply(db, c).db)
  {
    match c
    case InsertAuthor(a) =>
      if Apply(db, c).Committed? { PutAuthorKeepsConsistent(db, a); }
    case UpdateAuthor(a) =>
      if Apply(db, c).Committed? { PutAuthorKeepsConsistent(db, a); }
    case DeleteAuthor(id) =>
      if id in db.authors { CascadeKeepsConsistent(db, id); }
    case InsertBlog(b) =>
      if Apply(db, c).Committed? { PutBlogKeepsConsistent(db, b); }
    case UpdateBlog(b) =>
      if Apply(db, c).Committed? { PutBlogKeepsConsistent(db, b); }
    case DeleteBlog(id) =>
  }

  /** The database never commits a state that breaks the schema. */
  lemma {:induction false} CommitKeepsConsistent(db: Db, cs: seq<RowChange>)
    requires Consistent(db)
    ensures Commit(db, cs).Committed? ==> Consistent(Commit(db, cs).db)
    decreases |cs|
  {
    if cs != [] {
      ApplyKeepsConsistent(db, cs[0]);
      var a := Apply(db, cs[0]);
      if a.Committed? {
        CommitKeepsConsistent(a.db, cs[1..]);
      }
    }
  }

  /** Inserting an author whose email another author has is refused with SQL error 2601. */
  lemma DuplicateEmailInsertRefused(db: Db, a: AuthorRow)
    requires AuthorColumnsFit(a) && EmailTaken(db, a.email, a.id)
    requires a.id !in db.authors
    ensures Commit(db, [RowChange.InsertAuthor(a)]) == Rejected(DuplicateEmail)
  {
    CommitOne(db, RowChange.InsertAuthor(a));
  }

  /** Inserting a blog whose author is not stored is refused with SQL error 547. */
  lemma OrphanBlogInsertRefused(db: Db, b: BlogRow)
    requires BlogColumnsFit(b) && b.authorId !in db.authors
    requires b.id !in db.blogs
    ensures Commit(db, [RowChange.InsertBlog(b)]) == Rejected(MissingAuthor)
  {
    CommitOne(db, RowChange.InsertBlog(b));
  }
}
