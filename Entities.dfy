/**
 * The two persisted entities (BlogSystem.Domain/Entities/Author.cs, Blog.cs)
 * and their base: a generated identity, a creation time set at construction
 * and an update time that stays null until the first mutation. The identity
 * generator and the clock are parameters (`id`, `now`).
 */
module Entities {
  import opened Wrappers

  /** A Guid as the 128-bit number its canonical text spells in hexadecimal. */
  newtype Guid = x: int | 0 <= x < 0x1_0000_0000_0000_0000_0000_0000_0000_0000

  /** Guid.Empty. */
  const EmptyGuid: Guid := 0

  /** A DateTime, in ticks. */
  type Time = int

  /** A nullable .NET string. */
  type Text = Option<string>

  /** The stored state of an author: one row of the Authors table. */
  datatype AuthorRow = AuthorRow(
    id: Guid,
    name: Text,
    email: Text,
    imageUrl: Text,
    createdAt: Time,
    updatedAt: Option<Time>)

  /** The stored state of a blog post: one row of the Blogs table. */
  datatype BlogRow = BlogRow(
    id: Guid,
    title: Text,
    body: Text,
    authorId: Guid,
    createdAt: Time,
    updatedAt: Option<Time>)

  /** What Author.UpdateDetails does to an author's state. */
  function UpdatedDetails(row: AuthorRow, name: Text, email: Text, imageUrl: Text, now: Time): (r: AuthorRow)
    ensures r.id == row.id && r.createdAt == row.createdAt
    ensures r.name == name && r.email == email && r.imageUrl == imageUrl && r.updatedAt == Some(now)
  {
    row.(name := name, email := email, imageUrl := imageUrl, updatedAt := Some(now))
  }

  /** What Blog.Update does to a blog's state. */
  function UpdatedPost(row: BlogRow, title: Text, body: Text, now: Time): (r: BlogRow)
    ensures r.id == row.id && r.createdAt == row.createdAt && r.authorId == row.authorId
    ensures r.title == title && r.body == body && r.updatedAt == Some(now)
  {
    row.(title := title, body := body, updatedAt := Some(now))
  }

  /** Updating details twice keeps only the second update. */
  lemma UpdatedDetailsOverwrites(row: AuthorRow, n1: Text, e1: Text, i1: Text, t1: Time,
                                 n2: Text, e2: Text, i2: Text, t2: Time)
    ensures UpdatedDetails(UpdatedDetails(row, n1, e1, i1, t1), n2, e2, i2, t2)
         == UpdatedDetails(row, n2, e2, i2, t2)
  {
  }

  class Author {
    const id: Guid
    const createdAt: Time
    var name: Text
    var email: Text
    var imageUrl: Text
    var updatedAt: Option<Time>
    /** The private `_blogs` list; only read through Blogs(). */
    var blogs: seq<Blog>

    /** The author's current state as a row. */
    function Row(): AuthorRow
      reads this
    {
      AuthorRow(id, name, email, imageUrl, createdAt, updatedAt)
    }

    /** The read-only view of the owned blogs. */
    function Blogs(): seq<Blog>
      reads this
    {
      blogs
    }

    /** Author(name, email, imageUrl = null); a new author owns no blogs and was never updated. */
    constructor (id: Guid, now: Time, name: Text, email: Text, imageUrl: Text := None)
      ensures Row() == AuthorRow(id, name, email, imageUrl, now, None)
      ensures Blogs() == []
    {
      this.id := id;
      this.createdAt := now;
      this.name := name;
      this.email := email;
      this.imageUrl := imageUrl;
      this.updatedAt := None;
      this.blogs := [];
    }

    /** The entity the context materialises from a stored row. */
    constructor Materialize(row: AuthorRow)
      ensures Row() == row && Blogs() == []
    {
      this.id := row.id;
      this.createdAt := row.createdAt;
      this.name := row.name;
      this.email := row.email;
      this.imageUrl := row.imageUrl;
      this.updatedAt := row.updatedAt;
      this.blogs := [];
    }

    /** UpdateDetails: overwrites name, email and image URL (null when omitted) and stamps the time. */
    method UpdateDetails(now: Time, name: Text, email: Text, imageUrl: Text := None)
      modifies this
      ensures Row() == UpdatedDetails(old(Row()), name, email, imageUrl, now)
      ensures Blogs() == old(Blogs())
    {
      this.name := name;
      this.email := email;
      this.imageUrl := imageUrl;
      this.updatedAt := Some(now);
    }
  }

  class Blog {
    const id: Guid
    const createdAt: Time
    const authorId: Guid
    var title: Text
    var body: Text
    var updatedAt: Option<Time>
    /** The Author navigation; null until the context loads it. */
    var author: Author?

    /** The blog's current state as a row. */
    function Row(): BlogRow
      reads this
    {
      BlogRow(id, title, body, authorId, createdAt, updatedAt)
    }

    /** Blog(title, body, authorId). */
    constructor (id: Guid, now: Time, title: Text, body: Text, authorId: Guid)
      ensures Row() == BlogRow(id, title, body, authorId, now, None)
      ensures author == null
    {
      this.id := id;
      this.createdAt := now;
      this.authorId := authorId;
      this.title := title;
      this.body := body;
      this.updatedAt := None;
      this.author := null;
    }

    /** The entity the context materialises from a stored row. */
    constructor Materialize(row: BlogRow)
      ensures Row() == row && author == null
    {
      this.id := row.id;
      this.createdAt := row.createdAt;
      this.authorId := row.authorId;
      this.title := row.title;
      this.body := row.body;
      this.updatedAt := row.updatedAt;
      this.author := null;
    }

    /** Update: overwrites title and body and stamps the time; the author link is untouched. */
    method Update(now: Time, title: Text, body: Text)
      modifies this
      ensures Row() == UpdatedPost(old(Row()), title, body, now)
      ensures author == old(author)
    {
      this.title := title;
      this.body := body;
      this.updatedAt := Some(now);
    }
  }
}
