/**
 * The schema that AuthorConfiguration.cs and BlogConfiguration.cs declare,
 * stated as invariants of the stored rows, and the cascade rule for deleting
 * an author.
 */
module Configurations {
  import opened Wrappers
  import opened Entities

  const NameMaxLength := 100
  const EmailMaxLength := 255
  const ImageUrlMaxLength := 500
  const TitleMaxLength := 200

  /** The committed contents of the two tables, keyed by Id. */
  datatype Db = Db(authors: map<Guid, AuthorRow>, blogs: map<Guid, BlogRow>)

  /** HasKey(a => a.Id): each author is stored under its own Id. */
  predicate AuthorsKeyed(db: Db)
  {
    forall k :: k in db.authors ==> db.authors[k].id == k
  }

  /** HasKey(b => b.Id): each blog is stored under its own Id. */
  predicate BlogsKeyed(db: Db)
  {
    forall k :: k in db.blogs ==> db.blogs[k].id == k
  }

  /** HasIndex(a => a.Email).IsUnique(). */
  predicate UniqueEmails(authors: map<Guid, AuthorRow>)
  {
    forall k1, k2 :: k1 in authors && k2 in authors && authors[k1].email == authors[k2].email ==> k1 == k2
  }

  /** Name required, at most 100; Email required, at most 255; ImageUrl optional, at most 500. */
  predicate AuthorColumnsFit(a: AuthorRow)
  {
    && a.name.Some? && |a.name.value| <= NameMaxLength
    && a.email.Some? && |a.email.value| <= EmailMaxLength
    && (a.imageUrl.Some? ==> |a.imageUrl.value| <= ImageUrlMaxLength)
  }

  /** Title required, at most 200; Body required, nvarchar(max) so unbounded. */
  predicate BlogColumnsFit(b: BlogRow)
  {
    b.title.Some? && |b.title.value| <= TitleMaxLength && b.body.Some?
  }

  /** HasForeignKey(b => b.AuthorId): every blog's author is stored. */
  predicate BlogsHaveAuthors(db: Db)
  {
    forall k :: k in db.blogs ==> db.blogs[k].authorId in db.authors
  }

  /** Every constraint of both configurations. */
  predicate Consistent(db: Db)
  {
    && AuthorsKeyed(db) && BlogsKeyed(db)
    && UniqueEmails(db.authors)
    && (forall k :: k in db.authors ==> AuthorColumnsFit(db.authors[k]))
    && (forall k :: k in db.blogs ==> BlogColumnsFit(db.blogs[k]))
    && BlogsHaveAuthors(db)
  }

  /** OnDelete(DeleteBehavior.Cascade): removing an author removes the blogs it owns. */
  function CascadeDeleteAuthor(db: Db, id: Guid): (r: Db)
    ensures r.authors == db.authors - {id}
    ensures forall k :: k in r.blogs <==> k in db.blogs && db.blogs[k].authorId != id
    ensures forall k :: k in r.blogs ==> r.blogs[k] == db.blogs[k]
  {
    Db(db.authors - {id}, map k | k in db.blogs && db.blogs[k].authorId != id :: db.blogs[k])
  }

  /** The cascade never leaves a blog without its author. */
  lemma CascadeKeepsConsistent(db: Db, id: Guid)
    requires Consistent(db)
    ensures Consistent(CascadeDeleteAuthor(db, id))
  {
  }

  /** The empty store satisfies every constraint. */
  lemma EmptyIsConsistent()
    ensures Consistent(Db(map[], map[]))
  {
  }
}
