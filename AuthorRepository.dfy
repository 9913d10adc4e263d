/** The author-specific queries of AuthorRepository.cs over the committed Authors table. */
module AuthorRepository {
  import opened Wrappers
  import opened Entities
  import opened Configurations
  import GenericRepository

  /** The key selector `a => a.Id`. */
  function AuthorIdOf(a: AuthorRow): Guid
  {
    a.id
  }

  /** ExistsAsync on the Authors table finds exactly the stored keys when every author is stored under its own Id. */
  lemma AuthorExistsIffStored(db: Db, id: Guid)
    requires AuthorsKeyed(db)
    ensures GenericRepository.Exists(db.authors, AuthorIdOf, id) <==> id in db.authors
  {
    assert GenericRepository.Keyed(db.authors, AuthorIdOf);
    GenericRepository.ExistsIffGetById(db.authors, AuthorIdOf, id);
  }

  /** EmailExistsAsync: AnyAsync(a => a.Email == email). */
  predicate EmailExists(db: Db, email: Text)
  {
    exists k :: k in db.authors && db.authors[k].email == email
  }

  /** The first author of the sequence with this email (Where + FirstOrDefault). */
  function FirstWithEmail(authors: seq<AuthorRow>, email: Text): (r: Option<AuthorRow>)
    ensures r.Some? ==> r.value in authors && r.value.email == email
    ensures r.None? ==> forall i :: 0 <= i < |authors| ==> authors[i].email != email
  {
    if authors == [] then None
    else if authors[0].email == email then Some(authors[0])
    else FirstWithEmail(authors[1..], email)
  }

  /** GetByEmailAsync, scanning authors in GetAll order. */
  function GetByEmail(db: Db, email: Text): (r: Option<AuthorRow>)
    ensures r.Some? ==> r.value in db.authors.Values && r.value.email == email
  {
    FirstWithEmail(GenericRepository.GetAll(db.authors), email)
  }

  /** GetByEmail finds an author exactly when EmailExists holds. */
  lemma GetByEmailIffEmailExists(db: Db, email: Text)
    ensures GetByEmail(db, email).Some? <==> EmailExists(db, email)
  {
    var all := GenericRepository.GetAll(db.authors);
    if EmailExists(db, email) {
      var k :| k in db.authors && db.authors[k].email == email;
      var i :| 0 <= i < |all| && all[i] == db.authors[k];
    }
  }

  /** Under the unique-email index, GetByEmail returns the one author with that email. */
  lemma GetByEmailIsTheOwner(db: Db, email: Text, k: Guid)
    requires UniqueEmails(db.authors)
    requires k in db.authors && db.authors[k].email == email
    ensures GetByEmail(db, email) == Some(db.authors[k])
  {
    GetByEmailIffEmailExists(db, email);
    var a := GetByEmail(db, email).value;
    var k' :| k' in db.authors && db.authors[k'] == a;
  }

  /** An unused email is not taken by any author, whatever author is excluded. */
  lemma UnusedEmailIsFree(db: Db, email: Text, except: Guid)
    requires !EmailExists(db, email)
    ensures forall k :: k in db.authors && k != except ==> db.authors[k].email != email
  {
  }
}
