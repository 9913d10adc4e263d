/** GetBlogByIdQuery.cs: one lookup and a hand-built DTO, or NotFound. */
module GetBlogByIdQuery {
  import opened Wrappers
  import opened Common
  import opened Exceptions
  import opened Entities
  import opened Configurations
  import opened Mapping
  import GenericRepository

  const NotFoundMessage := "blod is not found"
  /** The AuthorName the handler writes into every DTO. */
  const FixedAuthorName := "Ali"

  /** GetBlogByIdHandler.Handle on the committed rows. */
  function Handle(db: Db, id: Guid): (o: Outcome<BlogDto>)
    ensures o.Raised? <==> id !in db.blogs
    ensures o.Raised? ==> o.exc == NotFound(NotFoundMessage)
    ensures o.Returned? ==> o.result.IsSuccess && o.result.StatusCode == 200 && o.result.Message == "Success"
  {
    match GenericRepository.GetById(db.blogs, id)
    case None => Raised(NotFound(NotFoundMessage))
    case Some(b) => Returned(Success(BlogDto(b.id, b.title, b.body, b.authorId, Some(FixedAuthorName), b.createdAt, b.updatedAt)))
  }

  /** The DTO copies every field of the stored blog except AuthorName, which is "Ali" whoever the author is. */
  lemma DtoCopiesBlog(db: Db, id: Guid)
    requires id in db.blogs
    ensures var d := Handle(db, id).result.Data.value;
            d.authorName == Some(FixedAuthorName)
            && d == ToBlogDto(db.blogs[id], None).(authorName := Some(FixedAuthorName))
  {
  }

  /** Two blogs by different authors get the same AuthorName. */
  lemma AuthorNameIgnoresAuthor(db: Db, id1: Guid, id2: Guid)
    requires id1 in db.blogs && id2 in db.blogs
    ensures Handle(db, id1).result.Data.value.authorName == Handle(db, id2).result.Data.value.authorName
  {
  }
}

/** GetAllBlogsQuery.cs: every blog with its author, mapped, always a success. */
module GetAllBlogsQuery {
  import opened Wrappers
  import opened Common
  import opened Exceptions
  import opened Entities
  import opened Configurations
  import opened Mapping
  import opened BlogRepository

  /** blogs.Select(Map<BlogDto>), the Author navigation loaded by Include. */
  function ToDtos(bs: seq<BlogWithAuthor>): (r: seq<BlogDto>)
    ensures |r| == |bs|
    ensures forall i :: 0 <= i < |bs| ==> r[i] == ToBlogDto(bs[i].blog, Some(bs[i].author))
  {
    if bs == [] then [] else [ToBlogDto(bs[0].blog, Some(bs[0].author))] + ToDtos(bs[1..])
  }

  /** GetAllBlogsQueryHandler.Handle on the committed rows. */
  function Handle(db: Db): (o: Outcome<seq<BlogDto>>)
    ensures o.Returned? && o.result.IsSuccess && o.result.Data.Some? && o.result.StatusCode == 200
    ensures o.result.Message == "Blogs retrieved successfully"
  {
    Returned(Success(ToDtos(GetBlogsWithAuthors(db)), "Blogs retrieved successfully"))
  }

  /** With the foreign key intact a stored blog's DTO, with its author's name, is among the DTOs. */
  lemma StoredBlogListed(db: Db, k: Guid)
    requires BlogsHaveAuthors(db) && k in db.blogs
    ensures ToBlogDto(db.blogs[k], Some(db.authors[db.blogs[k].authorId])) in ToDtos(GetBlogsWithAuthors(db))
  {
    var bs := GetBlogsWithAuthors(db);
    BlogsWithAuthorsListsBlog(db, k);
    var i :| 0 <= i < |bs| && bs[i] == BlogWithAuthor(db.blogs[k], db.authors[db.blogs[k].authorId]);
    assert ToDtos(bs)[i] == ToBlogDto(db.blogs[k], Some(db.authors[db.blogs[k].authorId]));
  }

  /** With the foreign key intact there is one DTO per stored blog, and each stored blog appears with its author's name. */
  lemma OneDtoPerBlog(db: Db)
    requires BlogsHaveAuthors(db)
    ensures |Handle(db).result.Data.value| == |db.blogs|
    ensures forall k :: k in db.blogs ==>
              ToBlogDto(db.blogs[k], Some(db.authors[db.blogs[k].authorId])) in Handle(db).result.Data.value
  {
    BlogsWithAuthorsCount(db);
    var ds := ToDtos(GetBlogsWithAuthors(db));
    assert Handle(db).result.Data.value == ds;
    forall k | k in db.blogs ensures ToBlogDto(db.blogs[k], Some(db.authors[db.blogs[k].authorId])) in ds {
      StoredBlogListed(db, k);
    }
  }

  /** Every DTO's AuthorName is the Name of the author its AuthorId names. */
  lemma AuthorNameIsTheAuthors(db: Db)
    ensures forall i :: 0 <= i < |Handle(db).result.Data.value| ==>
              var d := Handle(db).result.Data.value[i];
              d.authorId in db.authors && d.authorName == db.authors[d.authorId].name
  {
    var bs := GetBlogsWithAuthors(db);
    var ds := ToDtos(bs);
    forall i | 0 <= i < |ds| ensures ds[i].authorId in db.authors && ds[i].authorName == db.authors[ds[i].authorId].name {
      assert ds[i] == ToBlogDto(bs[i].blog, Some(bs[i].author));
    }
  }
}
