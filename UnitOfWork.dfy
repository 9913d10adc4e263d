/**
 * UnitOfWork.cs over one request-scoped context: the committed rows, the
 * change tracker that Add, Update, Delete and the lookups fill, SaveChanges
 * with its translation of database failures into domain exceptions, and the
 * `_transaction` field that Begin, Commit and Rollback drive.
 */
module Persistence {
  import opened Wrappers
  import opened Entities
  import opened Configurations
  import opened Database
  import opened Exceptions
  import TextFormat

  // ---------------------------------------------------------------------------
  // Failure translation (SaveChangesAsync's catch clauses)
  // ---------------------------------------------------------------------------

  const ConcurrencyMessage := "Data was modified or deleted by another user. Please refresh and try again."
  const TimeoutMessage := "The database operation timed out."

  /** The exception SaveChangesAsync throws for a failure of the context's own save. */
  function TranslateSaveFailure(f: DbFailure): (e: Exc)
    ensures e.ConstraintViolation? <==> f.SqlFailure? && f.number == SqlNotNull
    ensures e.DuplicateEntry? <==> f.SqlFailure? && (f.number == SqlUniqueIndex || f.number == SqlPrimaryKey)
    ensures e.DatabaseOperation? <==>
              (f.SqlFailure? && f.number !in {SqlNotNull, SqlUniqueIndex, SqlPrimaryKey}) || f.UpdateFailure?
    ensures e.Concurrency? <==> f.ConcurrencyFailure?
    ensures e.DatabaseConnection? <==> f.TimedOut?
    ensures f.SqlFailure? && f.number == SqlNotNull ==>
              e.message == "A required field was missing or invalid: " + f.message
    ensures f.SqlFailure? && (f.number == SqlUniqueIndex || f.number == SqlPrimaryKey) ==>
              e.message == "A record with the same unique identifier already exists: " + f.message
    ensures f.SqlFailure? && f.number !in {SqlNotNull, SqlUniqueIndex, SqlPrimaryKey} ==>
              e.message == "An unexpected SQL Server error occurred: " + f.message + " (Error Code: " + TextFormat.IntText(f.number) + ")"
    ensures f.UpdateFailure? ==> e.message == "A database error occurred: " + f.message
    ensures e.Concurrency? ==> e.message == ConcurrencyMessage
    ensures e.DatabaseConnection? ==> e.message == TimeoutMessage
  {
    match f
    case ConcurrencyFailure(_) => Concurrency(ConcurrencyMessage)
    case SqlFailure(n, m) =>
      if n == SqlNotNull then ConstraintViolation("A required field was missing or invalid: " + m)
      else if n == SqlUniqueIndex || n == SqlPrimaryKey then DuplicateEntry("A record with the same unique identifier already exists: " + m)
      else DatabaseOperation("An unexpected SQL Server error occurred: " + m + " (Error Code: " + TextFormat.IntText(n) + ")")
    case UpdateFailure(m) => DatabaseOperation("A database error occurred: " + m)
    case TimedOut => DatabaseConnection(TimeoutMessage)
  }

  /** No save failure escapes untranslated: none of them reaches the handler as a SqlException or a generic DbException. */
  lemma TranslationNeverLeaksDbException(f: DbFailure)
    ensures !IsDbException(TranslateSaveFailure(f)) && !TranslateSaveFailure(f).Other?
    ensures !TranslateSaveFailure(f).Validation? && !TranslateSaveFailure(f).NotFound?
  {
  }

  // ---------------------------------------------------------------------------
  // The change tracker
  // ---------------------------------------------------------------------------

  datatype EntityState = Added | Unchanged | Modified | Deleted

  /** A tracked entity, its state and the snapshot taken when it was attached. */
  datatype Entry =
    | AuthorEntry(author: Author, state: EntityState, authorSnapshot: AuthorRow)
    | BlogEntry(blog: Blog, state: EntityState, blogSnapshot: BlogRow)

  function EntryObject(e: Entry): object
  {
    if e.AuthorEntry? then e.author else e.blog
  }

  /** The entity objects the tracker refers to. */
  function Objects(es: seq<Entry>): set<object>
  {
    set i | 0 <= i < |es| :: EntryObject(es[i])
  }

  /** The objects of a non-empty tracker are its first entry's and those of the rest. */
  lemma ObjectsSplit(es: seq<Entry>)
    requires es != []
    ensures Objects(es) == {EntryObject(es[0])} + Objects(es[1..])
  {
    forall o | o in Objects(es[1..]) ensures o in Objects(es) {
      var i :| 0 <= i < |es[1..]| && EntryObject(es[1..][i]) == o;
      assert EntryObject(es[i + 1]) == o;
    }
    forall o | o in Objects(es) ensures o == EntryObject(es[0]) || o in Objects(es[1..]) {
      var i :| 0 <= i < |es| && EntryObject(es[i]) == o;
      if i > 0 { assert EntryObject(es[1..][i - 1]) == o; }
    }
  }

  /** The commands DetectChanges derives from one entry; an unchanged entity is written only if it differs from its snapshot. */
  function EntryChanges(e: Entry): (r: seq<RowChange>)
    reads EntryObject(e)
    ensures |r| <= 1
    ensures e.state == Added ==> r == (if e.AuthorEntry? then [InsertAuthor(e.author.Row())] else [InsertBlog(e.blog.Row())])
    ensures e.state == Deleted ==> r == (if e.AuthorEntry? then [DeleteAuthor(e.author.id)] else [DeleteBlog(e.blog.id)])
    ensures e.state == Modified ==> r == (if e.AuthorEntry? then [UpdateAuthor(e.author.Row())] else [UpdateBlog(e.blog.Row())])
    ensures e.state == Unchanged && e.AuthorEntry? ==>
              r == (if e.author.Row() == e.authorSnapshot then [] else [UpdateAuthor(e.author.Row())])
    ensures e.state == Unchanged && e.BlogEntry? ==>
              r == (if e.blog.Row() == e.blogSnapshot then [] else [UpdateBlog(e.blog.Row())])
  {
    match e
    case AuthorEntry(a, s, orig) =>
      (match s
       case Added => [InsertAuthor(a.Row())]
       case Modified => [UpdateAuthor(a.Row())]
       case Unchanged => if a.Row() != orig then [UpdateAuthor(a.Row())] else []
       case Deleted => [DeleteAuthor(a.id)])
    case BlogEntry(b, s, orig) =>
      (match s
       case Added => [InsertBlog(b.Row())]
       case Modified => [UpdateBlog(b.Row())]
       case Unchanged => if b.Row() != orig then [UpdateBlog(b.Row())] else []
       case Deleted => [DeleteBlog(b.id)])
  }

  /** The commands SaveChanges sends, entry by entry in tracking order. */
  function Changes(es: seq<Entry>): (r: seq<RowChange>)
    reads Objects(es)
    ensures |r| <= |es|
  {
    if es == [] then []
    else
      ObjectsSplit(es);
      EntryChanges(es[0]) + Changes(es[1..])
  }

  /** The blog objects the tracker refers to. */
  function TrackedBlogs(es: seq<Entry>): set<Blog>
  {
    set i | 0 <= i < |es| && es[i].BlogEntry? :: es[i].blog
  }

  /** The entry's snapshot is its entity's current row. */
  predicate Snapshotted(e: Entry)
    reads EntryObject(e)
  {
    if e.AuthorEntry? then e.authorSnapshot == e.author.Row() else e.blogSnapshot == e.blog.Row()
  }

  /**
   * The tracker after a successful save: the entries that were not Deleted,
   * in order, each Unchanged with its snapshot taken now; Deleted ones are
   * detached.
   */
  function AcceptAll(es: seq<Entry>): (r: seq<Entry>)
    reads Objects(es)
    ensures |r| <= |es|
    ensures forall i :: 0 <= i < |r| ==> r[i].state == Unchanged
    ensures Objects(r) <= Objects(es)
    ensures forall i :: 0 <= i < |r| ==> Snapshotted(r[i])
    ensures forall i :: 0 <= i < |es| && es[i].state != Deleted ==> EntryObject(es[i]) in Objects(r)
    ensures forall o :: o in Objects(r) ==> exists i :: 0 <= i < |es| && es[i].state != Deleted && EntryObject(es[i]) == o
  {
    if es == [] then []
    else
      ObjectsSplit(es);
      var rest := AcceptAll(es[1..]);
      var head := if es[0].AuthorEntry? then AuthorEntry(es[0].author, Unchanged, es[0].author.Row())
                  else BlogEntry(es[0].blog, Unchanged, es[0].blog.Row());
      var r := if es[0].state == Deleted then rest else [head] + rest;
      assert Objects(r) == (if es[0].state == Deleted then Objects(rest) else {EntryObject(es[0])} + Objects(rest)) by {
        if es[0].state != Deleted { ObjectsSplit(r); assert r[1..] == rest; }
      }
      assert forall i :: 1 <= i < |es| ==> es[i] == es[1..][i - 1];
      r
  }

  /**
   * Attaching an entity in a new state: an entity already tracked has its
   * entry's state changed in place (an Added one stays Added on Update and is
   * detached on Remove); an untracked one is appended.
   */
  function Stage(es: seq<Entry>, e: Entry): (r: seq<Entry>)
    ensures (forall i :: 0 <= i < |es| ==> EntryObject(es[i]) != EntryObject(e)) ==> r == es + [e]
    ensures forall j :: 0 <= j < |es| && EntryObject(es[j]) == EntryObject(e) && NotTrackedBefore(es, j, e) ==>
              r == es[..j] + Restaged(es[j], e) + es[j + 1..]
  {
    if es == [] then [e]
    else if EntryObject(es[0]) == EntryObject(e) then
      assert es == es[..0] + [es[0]] + es[1..];
      Restaged(es[0], e) + es[1..]
    else
      var rest := Stage(es[1..], e);
      assert forall j :: 0 <= j < |es| && EntryObject(es[j]) == EntryObject(e) && NotTrackedBefore(es, j, e) ==>
               [es[0]] + rest == es[..j] + Restaged(es[j], e) + es[j + 1..] by {
        forall j | 0 <= j < |es| && EntryObject(es[j]) == EntryObject(e) && NotTrackedBefore(es, j, e)
          ensures [es[0]] + rest == es[..j] + Restaged(es[j], e) + es[j + 1..]
        {
          assert j != 0;
          forall k | 0 <= k < j - 1 ensures EntryObject(es[1..][k]) != EntryObject(e) {
            assert es[1..][k] == es[k + 1];
          }
          assert es[1..][j - 1] == es[j];
          ConsSplice(es[0], es[1..], j, Restaged(es[j], e));
          assert [es[0]] + es[1..] == es;
        }
      }
      [es[0]] + rest
  }

  /** Splicing into a tail and then consing equals splicing one position further into the whole. */
  lemma ConsSplice(x: Entry, tail: seq<Entry>, j: int, mid: seq<Entry>)
    requires 1 <= j <= |tail|
    ensures [x] + (tail[..j - 1] + mid + tail[j..]) == ([x] + tail)[..j] + mid + ([x] + tail)[j + 1..]
  {
    assert ([x] + tail)[..j] == [x] + tail[..j - 1];
    assert ([x] + tail)[j + 1..] == tail[j..];
  }

  /** The entity's earlier entries, before position `j`, belong to other objects. */
  predicate NotTrackedBefore(es: seq<Entry>, j: int, e: Entry)
  {
    forall k :: 0 <= k < j && k < |es| ==> EntryObject(es[k]) != EntryObject(e)
  }

  /**
   * The entry of an entity already tracked, staged again as `e` says: an
   * Added one stays Added, or is detached when it is removed; any other
   * takes the new state and keeps its snapshot.
   */
  function Restaged(tracked: Entry, e: Entry): seq<Entry>
  {
    if tracked.state == Added && e.state == Deleted then []
    else if tracked.state == Added then [tracked]
    else [tracked.(state := e.state)]
  }

  /** The tracker of a fresh context, after a single Add, holds just that insert. */
  lemma SingleAddSendsOneInsert(a: Author)
    ensures Changes(Stage([], AuthorEntry(a, Added, a.Row()))) == [InsertAuthor(a.Row())]
  {
  }

  /** Removing a loaded author sends exactly one delete, whatever was changed on it. */
  lemma RemoveLoadedSendsOneDelete(a: Author, original: AuthorRow)
    ensures Changes(Stage([AuthorEntry(a, Unchanged, original)], AuthorEntry(a, Deleted, original))) == [DeleteAuthor(a.id)]
  {
    assert Stage([AuthorEntry(a, Unchanged, original)], AuthorEntry(a, Deleted, original)) == [AuthorEntry(a, Deleted, original)];
  }

  /** Removing an author that was only added sends nothing. */
  lemma RemoveAddedSendsNothing(a: Author)
    ensures Stage([AuthorEntry(a, Added, a.Row())], AuthorEntry(a, Deleted, a.Row())) == []
  {
  }

  // ---------------------------------------------------------------------------
  // The transaction state machine
  // ---------------------------------------------------------------------------

  /** How a transaction ended. */
  datatype TxEnd = CommittedTx(id: nat) | RolledBackTx(id: nat) | DisposedTx(id: nat)

  /** The `_transaction` field (transactions numbered in order of creation) and every end so far. */
  datatype TxState = TxState(active: Option<nat>, next: nat, ended: seq<TxEnd>)

  datatype TxOp = Begin | CommitTx | RollbackTx | DisposeTx

  /** Numbers are allocated in order, each transaction ends at most once, and the active one has not ended. */
  predicate TxWellFormed(s: TxState)
  {
    && (s.active.Some? ==> s.active.value < s.next && forall i :: 0 <= i < |s.ended| ==> s.ended[i].id != s.active.value)
    && (forall i :: 0 <= i < |s.ended| ==> s.ended[i].id < s.next)
    && (forall i, j :: 0 <= i < j < |s.ended| ==> s.ended[i].id != s.ended[j].id)
  }

  /**
   * One call: Begin stores a new transaction in the field whatever it held;
   * Commit and Rollback end the active one and clear the field, or do nothing;
   * Dispose disposes the active one without clearing the field.
   */
  function TxStep(s: TxState, op: TxOp): (r: TxState)
    ensures s.ended <= r.ended && |r.ended| <= |s.ended| + 1
    ensures s.next <= r.next <= s.next + 1
  {
    match op
    case Begin => TxState(Some(s.next), s.next + 1, s.ended)
    case CommitTx => if s.active.Some? then TxState(None, s.next, s.ended + [CommittedTx(s.active.value)]) else s
    case RollbackTx => if s.active.Some? then TxState(None, s.next, s.ended + [RolledBackTx(s.active.value)]) else s
    case DisposeTx => if s.active.Some? then s.(ended := s.ended + [DisposedTx(s.active.value)]) else s
  }

  /** Begin makes a new transaction active and ends none, so an active one is abandoned, not committed. */
  lemma BeginReplacesWithoutEnding(s: TxState)
    requires TxWellFormed(s)
    ensures TxStep(s, Begin).active.Some? && TxStep(s, Begin).ended == s.ended
    ensures s.active.Some? ==> TxStep(s, Begin).active != s.active
  {
  }

  /** Commit and Rollback leave no transaction active, end exactly the active one, and do nothing when none is active. */
  lemma EndingClearsTransaction(s: TxState, op: TxOp)
    requires op == CommitTx || op == RollbackTx
    ensures TxStep(s, op).active.None?
    ensures s.active.None? ==> TxStep(s, op) == s
    ensures s.active.Some? ==> TxStep(s, op).ended == s.ended + [if op == CommitTx then CommittedTx(s.active.value) else RolledBackTx(s.active.value)]
  {
  }

  /** Every step keeps the numbering well formed: no transaction is ended twice by Commit or Rollback. */
  lemma TxStepKeepsWellFormed(s: TxState, op: TxOp)
    requires TxWellFormed(s) && op != DisposeTx
    ensures TxWellFormed(TxStep(s, op))
  {
  }

  // ---------------------------------------------------------------------------
  // The unit of work
  // ---------------------------------------------------------------------------

  /** What a command handler does: what it answers, the rows it leaves committed, and how many saves it issued. */
  datatype Effect<T> = Effect(outcome: Outcome<T>, db: Db, saves: nat)

  /** What SaveChangesAsync ends with: the affected-row count, or the exception it throws. */
  datatype SaveOutcome = Saved(count: nat) | SaveFailed(exc: Exc)

  /** The result of the whole save on the committed rows and the pending commands. */
  function SaveResult(db: Db, pending: seq<RowChange>): (o: SaveOutcome)
    ensures o.Saved? <==> Commit(db, pending).Committed?
    ensures o.Saved? ==> o.count == |pending|
    ensures o.SaveFailed? ==> o.exc == TranslateSaveFailure(Commit(db, pending).failure)
  {
    match Commit(db, pending)
    case Committed(_, n) => Saved(n)
    case Rejected(f) => SaveFailed(TranslateSaveFailure(f))
  }

  /** A successful save reports one affected row per pending command; a failed one leaves the rows as they were. */
  lemma SaveReportsRowCount(db: Db, pending: seq<RowChange>)
    requires Consistent(db)
    ensures SaveResult(db, pending).Saved? ==> SaveResult(db, pending).count == |pending| && Consistent(Commit(db, pending).db)
  {
    CommitKeepsConsistent(db, pending);
  }

  class UnitOfWork {
    var authors: map<Guid, AuthorRow>
    var blogs: map<Guid, BlogRow>
    var tracked: seq<Entry>
    var transaction: Option<nat>
    var nextTransaction: nat
    var ended: seq<TxEnd>
    var disposed: bool
    /** How many times SaveChangesAsync has been called. */
    ghost var saveCalls: nat

    /** The committed rows. */
    function State(): Db
      reads this
    {
      Db(authors, blogs)
    }

    function Tx(): TxState
      reads this
    {
      TxState(transaction, nextTransaction, ended)
    }

    /** The database keeps its schema and the transaction numbering is well formed. */
    predicate Valid()
      reads this
    {
      Consistent(State()) && TxWellFormed(Tx())
    }

    /** The commands a save would send now. */
    function Pending(): seq<RowChange>
      reads this, Objects(tracked)
    {
      Changes(tracked)
    }

    /** A context over a database, tracking nothing, with no transaction. */
    constructor (db: Db)
      requires Consistent(db)
      ensures Valid() && State() == db && tracked == []
      ensures Tx() == TxState(None, 0, []) && !disposed && saveCalls == 0
    {
      authors := db.authors;
      blogs := db.blogs;
      tracked := [];
      transaction := None;
      nextTransaction := 0;
      ended := [];
      disposed := false;
      saveCalls := 0;
    }

    /** AuthorRepository.AddAsync: starts tracking the author as Added and returns the very object it was given. */
    method AddAuthor(a: Author) returns (r: Author)
      requires !disposed
      modifies this
      ensures r == a
      ensures tracked == Stage(old(tracked), AuthorEntry(a, Added, a.Row()))
      ensures State() == old(State()) && Tx() == old(Tx()) && disposed == old(disposed) && saveCalls == old(saveCalls)
    {
      tracked := Stage(tracked, AuthorEntry(a, Added, a.Row()));
      r := a;
    }

    /** AuthorRepository.UpdateAsync: marks the author Modified; nothing is written before a save. */
    method UpdateAuthor(a: Author)
      requires !disposed
      modifies this
      ensures tracked == Stage(old(tracked), AuthorEntry(a, Modified, a.Row()))
      ensures State() == old(State()) && Tx() == old(Tx()) && disposed == old(disposed) && saveCalls == old(saveCalls)
    {
      tracked := Stage(tracked, AuthorEntry(a, Modified, a.Row()));
    }

    /** AuthorRepository.DeleteAsync: marks the author Deleted; nothing is written before a save. */
    method DeleteAuthor(a: Author)
      requires !disposed
      modifies this
      ensures tracked == Stage(old(tracked), AuthorEntry(a, Deleted, a.Row()))
      ensures State() == old(State()) && Tx() == old(Tx()) && disposed == old(disposed) && saveCalls == old(saveCalls)
    {
      tracked := Stage(tracked, AuthorEntry(a, Deleted, a.Row()));
    }

    /** BlogRepository.AddAsync: starts tracking the blog as Added and returns it. */
    method AddBlog(b: Blog) returns (r: Blog)
      requires !disposed
      modifies this
      ensures r == b
      ensures tracked == Stage(old(tracked), BlogEntry(b, Added, b.Row()))
      ensures State() == old(State()) && Tx() == old(Tx()) && disposed == old(disposed) && saveCalls == old(saveCalls)
    {
      tracked := Stage(tracked, BlogEntry(b, Added, b.Row()));
      r := b;
    }

    /** BlogRepository.UpdateAsync. */
    method UpdateBlog(b: Blog)
      requires !disposed
      modifies this
      ensures tracked == Stage(old(tracked), BlogEntry(b, Modified, b.Row()))
      ensures State() == old(State()) && Tx() == old(Tx()) && disposed == old(disposed) && saveCalls == old(saveCalls)
    {
      tracked := Stage(tracked, BlogEntry(b, Modified, b.Row()));
    }

    /** BlogRepository.DeleteAsync. */
    method DeleteBlog(b: Blog)
      requires !disposed
      modifies this
      ensures tracked == Stage(old(tracked), BlogEntry(b, Deleted, b.Row()))
      ensures State() == old(State()) && Tx() == old(Tx()) && disposed == old(disposed) && saveCalls == old(saveCalls)
    {
      tracked := Stage(tracked, BlogEntry(b, Deleted, b.Row()));
    }

    /**
     * AuthorRepository.GetByIdAsync: the stored author materialised and
     * tracked as Unchanged, or null. Relationship fix-up then points the
     * Author navigation of every tracked blog with this AuthorId at the
     * loaded author; no other field of a tracked blog changes.
     */
    method FindAuthor(id: Guid) returns (a: Author?)
      requires !disposed
      modifies this, TrackedBlogs(tracked)
      ensures a == null <==> id !in authors
      ensures a != null ==> fresh(a) && a.Row() == authors[id] && a.Blogs() == []
                            && tracked == old(tracked) + [AuthorEntry(a, Unchanged, authors[id])]
      ensures a == null ==> tracked == old(tracked)
      ensures forall b :: b in old(TrackedBlogs(tracked)) ==>
                b.Row() == old(b.Row()) && b.author == (if a != null && b.authorId == id then a else old(b.author))
      ensures State() == old(State()) && Tx() == old(Tx()) && disposed == old(disposed) && saveCalls == old(saveCalls)
    {
      if id in authors {
        var loaded := new Author.Materialize(authors[id]);
        forall b | b in TrackedBlogs(tracked) && b.authorId == id {
          b.author := loaded;
        }
        a := loaded;
        tracked := tracked + [AuthorEntry(a, Unchanged, authors[id])];
      } else {
        a := null;
      }
    }

    /** BlogRepository.GetByIdAsync: the stored blog materialised and tracked as Unchanged, or null. */
    method FindBlog(id: Guid) returns (b: Blog?)
      requires !disposed
      modifies this
      ensures b == null <==> id !in blogs
      ensures b != null ==> fresh(b) && b.Row() == blogs[id] && b.author == null
                            && tracked == old(tracked) + [BlogEntry(b, Unchanged, blogs[id])]
      ensures b == null ==> tracked == old(tracked)
      ensures State() == old(State()) && Tx() == old(Tx()) && disposed == old(disposed) && saveCalls == old(saveCalls)
    {
      if id in blogs {
        b := new Blog.Materialize(blogs[id]);
        tracked := tracked + [BlogEntry(b, Unchanged, blogs[id])];
      } else {
        b := null;
      }
    }

    /**
     * SaveChangesAsync: sends every pending command at once. On success the
     * rows are the committed ones, the count is the number of commands and
     * the tracker accepts its changes; on failure nothing is written, the
     * tracker is kept and the translated exception is thrown.
     */
    method SaveChanges() returns (o: SaveOutcome)
      requires Valid() && !disposed
      modifies this
      ensures Valid()
      ensures o == SaveResult(old(State()), old(Pending()))
      ensures o.Saved? ==> State() == Commit(old(State()), old(Pending())).db && tracked == old(AcceptAll(tracked))
      ensures o.SaveFailed? ==> State() == old(State()) && tracked == old(tracked)
      ensures Tx() == old(Tx()) && disposed == old(disposed) && saveCalls == old(saveCalls) + 1
    {
      var pending := Pending();
      var accepted := AcceptAll(tracked);
      saveCalls := saveCalls + 1;
      CommitKeepsConsistent(State(), pending);
      match Commit(State(), pending)
      case Committed(db, n) =>
        authors := db.authors;
        blogs := db.blogs;
        tracked := accepted;
        o := Saved(n);
      case Rejected(f) =>
        o := SaveFailed(TranslateSaveFailure(f));
    }

    /** BeginTransactionAsync. */
    method BeginTransaction()
      requires Valid() && !disposed
      modifies this
      ensures Valid() && Tx() == TxStep(old(Tx()), Begin)
      ensures State() == old(State()) && tracked == old(tracked) && disposed == old(disposed) && saveCalls == old(saveCalls)
    {
      TxStepKeepsWellFormed(Tx(), Begin);
      transaction := Some(nextTransaction);
      nextTransaction := nextTransaction + 1;
    }

    /** CommitTransactionAsync. */
    method CommitTransaction()
      requires Valid() && !disposed
      modifies this
      ensures Valid() && Tx() == TxStep(old(Tx()), CommitTx)
      ensures State() == old(State()) && tracked == old(tracked) && disposed == old(disposed) && saveCalls == old(saveCalls)
    {
      TxStepKeepsWellFormed(Tx(), CommitTx);
      if transaction.Some? {
        ended := ended + [CommittedTx(transaction.value)];
        transaction := None;
      }
    }

    /** RollbackTransactionAsync. */
    method RollbackTransaction()
      requires Valid() && !disposed
      modifies this
      ensures Valid() && Tx() == TxStep(old(Tx()), RollbackTx)
      ensures State() == old(State()) && tracked == old(tracked) && disposed == old(disposed) && saveCalls == old(saveCalls)
    {
      TxStepKeepsWellFormed(Tx(), RollbackTx);
      if transaction.Some? {
        ended := ended + [RolledBackTx(transaction.value)];
        transaction := None;
      }
    }

    /** Dispose: disposes the transaction if there is one, then the context. */
    method Dispose()
      requires !disposed
      modifies this
      ensures disposed && Tx() == TxStep(old(Tx()), DisposeTx)
      ensures State() == old(State()) && tracked == old(tracked) && saveCalls == old(saveCalls)
    {
      if transaction.Some? {
        ended := ended + [DisposedTx(transaction.value)];
      }
      disposed := true;
    }
  }
}
