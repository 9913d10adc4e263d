/** The blog-specific queries of BlogRepository.cs; Include(b => b.Author) is an inner join. */
module BlogRepository {
  import opened Wrappers
  import opened Entities
  import opened Configurations
  import GenericRepository

  /** A blog with its Author navigation loaded. */
  datatype BlogWithAuthor = BlogWithAuthor(blog: BlogRow, author: AuthorRow)

  /** Every blog of the sequence names a stored author. */
  predicate AllAuthored(db: Db, blogs: seq<BlogRow>)
  {
    forall i :: 0 <= i < |blogs| ==> blogs[i].authorId in db.authors
  }

  /** Include(b => b.Author): each blog paired with its stored author; a blog without one is dropped. */
  function IncludeAuthor(db: Db, blogs: seq<BlogRow>): (r: seq<BlogWithAuthor>)
    ensures |r| <= |blogs|
    ensures forall i :: 0 <= i < |r| ==> r[i].blog in blogs && r[i].blog.authorId in db.authors
                                         && r[i].author == db.authors[r[i].blog.authorId]
    ensures AllAuthored(db, blogs) ==>
              |r| == |blogs| && forall i :: 0 <= i < |r| ==> r[i] == BlogWithAuthor(blogs[i], db.authors[blogs[i].authorId])
  {
    if blogs == [] then []
    else
      var rest := IncludeAuthor(db, blogs[1..]);
      if blogs[0].authorId in db.authors then [BlogWithAuthor(blogs[0], db.authors[blogs[0].authorId])] + rest
      else rest
  }

  /** Where(b => b.AuthorId == authorId). */
  function OfAuthor(blogs: seq<BlogRow>, authorId: Guid): (r: seq<BlogRow>)
    ensures forall i :: 0 <= i < |r| ==> r[i] in blogs && r[i].authorId == authorId
    ensures forall i :: 0 <= i < |blogs| && blogs[i].authorId == authorId ==> blogs[i] in r
  {
    if blogs == [] then []
    else if blogs[0].authorId == authorId then [blogs[0]] + OfAuthor(blogs[1..], authorId)
    else OfAuthor(blogs[1..], authorId)
  }

  /** GetBlogsByAuthorIdAsync. */
  function GetBlogsByAuthorId(db: Db, authorId: Guid): seq<BlogWithAuthor>
  {
    IncludeAuthor(db, OfAuthor(GenericRepository.GetAll(db.blogs), authorId))
  }

  /** GetBlogsWithAuthorsAsync. */
  function GetBlogsWithAuthors(db: Db): seq<BlogWithAuthor>
  {
    IncludeAuthor(db, GenericRepository.GetAll(db.blogs))
  }

  /** Rows drawn from the Blogs table name stored authors when the foreign key holds. */
  lemma StoredBlogsAreAuthored(db: Db, blogs: seq<BlogRow>)
    requires BlogsHaveAuthors(db)
    requires forall i :: 0 <= i < |blogs| ==> blogs[i] in db.blogs.Values
    ensures AllAuthored(db, blogs)
  {
    forall i | 0 <= i < |blogs| ensures blogs[i].authorId in db.authors {
      assert blogs[i] in db.blogs.Values;
      var k :| k in db.blogs && db.blogs[k] == blogs[i];
    }
  }

  /** Every row OfAuthor keeps from GetAll is a stored blog. */
  lemma OfAuthorKeepsStored(db: Db, authorId: Guid)
    ensures forall i :: 0 <= i < |OfAuthor(GenericRepository.GetAll(db.blogs), authorId)| ==>
              OfAuthor(GenericRepository.GetAll(db.blogs), authorId)[i] in db.blogs.Values
  {
    var all := GenericRepository.GetAll(db.blogs);
    var mine := OfAuthor(all, authorId);
    forall i | 0 <= i < |mine| ensures mine[i] in db.blogs.Values {
      assert mine[i] in all;
      var l :| 0 <= l < |all| && all[l] == mine[i];
      assert all[l] in db.blogs.Values;
    }
  }

  /** GetBlogsByAuthorId returns stored blogs of that author only. */
  lemma BlogsByAuthorAreTheirs(db: Db, authorId: Guid)
    ensures forall i :: 0 <= i < |GetBlogsByAuthorId(db, authorId)| ==>
              GetBlogsByAuthorId(db, authorId)[i].blog in db.blogs.Values
              && GetBlogsByAuthorId(db, authorId)[i].blog.authorId == authorId
  {
    var mine := OfAuthor(GenericRepository.GetAll(db.blogs), authorId);
    OfAuthorKeepsStored(db, authorId);
    var r := IncludeAuthor(db, mine);
    forall i | 0 <= i < |r| ensures r[i].blog in db.blogs.Values && r[i].blog.authorId == authorId {
      var j :| 0 <= j < |mine| && mine[j] == r[i].blog;
    }
  }

  /** With the foreign key intact, every stored blog of the author is returned, with that author. */
  lemma BlogsByAuthorAreAllTheirs(db: Db, authorId: Guid, k: Guid)
    requires BlogsHaveAuthors(db)
    requires k in db.blogs && db.blogs[k].authorId == authorId
    ensures BlogWithAuthor(db.blogs[k], db.authors[authorId]) in GetBlogsByAuthorId(db, authorId)
  {
    var all := GenericRepository.GetAll(db.blogs);
    var mine := OfAuthor(all, authorId);
    OfAuthorKeepsStored(db, authorId);
    StoredBlogsAreAuthored(db, mine);
    var l :| 0 <= l < |all| && all[l] == db.blogs[k];
    var j :| 0 <= j < |mine| && mine[j] == db.blogs[k];
    assert IncludeAuthor(db, mine)[j] == BlogWithAuthor(db.blogs[k], db.authors[authorId]);
  }

  /** With the foreign key intact, GetBlogsWithAuthors returns one entry per stored blog. */
  lemma BlogsWithAuthorsCount(db: Db)
    requires BlogsHaveAuthors(db)
    ensures |GetBlogsWithAuthors(db)| == |db.blogs|
  {
    StoredBlogsAreAuthored(db, GenericRepository.GetAll(db.blogs));
  }

  /** With the foreign key intact, GetBlogsWithAuthors lists each stored blog with its author. */
  lemma BlogsWithAuthorsListsBlog(db: Db, k: Guid)
    requires BlogsHaveAuthors(db)
    requires k in db.blogs
    ensures BlogWithAuthor(db.blogs[k], db.authors[db.blogs[k].authorId]) in GetBlogsWithAuthors(db)
  {
    var all := GenericRepository.GetAll(db.blogs);
    StoredBlogsAreAuthored(db, all);
    var i :| 0 <= i < |all| && all[i] == db.blogs[k];
    assert IncludeAuthor(db, all)[i] == BlogWithAuthor(db.blogs[k], db.authors[db.blogs[k].authorId]);
  }

  /** One entry of GetBlogsWithAuthors is a stored blog paired with the author its AuthorId names. */
  lemma BlogWithAuthorMatched(db: Db, i: int)
    requires AuthorsKeyed(db) && 0 <= i < |GetBlogsWithAuthors(db)|
    ensures GetBlogsWithAuthors(db)[i].blog in db.blogs.Values
    ensures GetBlogsWithAuthors(db)[i].author.id == GetBlogsWithAuthors(db)[i].blog.authorId
  {
    var all := GenericRepository.GetAll(db.blogs);
    var e := IncludeAuthor(db, all)[i];
    assert e.blog in all;
    var j :| 0 <= j < |all| && all[j] == e.blog;
    assert all[j] in db.blogs.Values;
  }

  /** GetBlogsWithAuthors returns only stored blogs, each paired with the author its AuthorId names. */
  lemma BlogsWithAuthorsAreMatched(db: Db)
    requires AuthorsKeyed(db)
    ensures forall i :: 0 <= i < |GetBlogsWithAuthors(db)| ==>
              GetBlogsWithAuthors(db)[i].blog in db.blogs.Values
              && GetBlogsWithAuthors(db)[i].author.id == GetBlogsWithAuthors(db)[i].blog.authorId
  {
    forall i | 0 <= i < |GetBlogsWithAuthors(db)|
      ensures GetBlogsWithAuthors(db)[i].blog in db.blogs.Values
      ensures GetBlogsWithAuthors(db)[i].author.id == GetBlogsWithAuthors(db)[i].blog.authorId
    {
      BlogWithAuthorMatched(db, i);
    }
  }
}
