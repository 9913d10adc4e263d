/**
 * The DTO records (AuthorDtos.cs, BlogDtos.cs) and the mapping profiles as
 * plain field copies: CreateAuthorDto to Author goes through the Author
 * constructor, Author to AuthorDto and back copies every field, and Blog to
 * BlogDto reads AuthorName from the loaded Author navigation.
 */
module Mapping {
  import opened Wrappers
  import opened Entities

  datatype AuthorDto = AuthorDto(id: Guid, name: Text, email: Text, imageUrl: Text, createdAt: Time, updatedAt: Option<Time>)
  datatype CreateAuthorDto = CreateAuthorDto(name: Text, email: Text, imageUrl: Text)
  datatype UpdateAuthorDto = UpdateAuthorDto(name: Text, email: Text, imageUrl: Text)
  datatype BlogDto = BlogDto(id: Guid, title: Text, body: Text, authorId: Guid, authorName: Text, createdAt: Time, updatedAt: Option<Time>)
  datatype CreateBlogDto = CreateBlogDto(title: Text, body: Text, authorId: Guid)

  /** Map<AuthorDto>(author). */
  function ToAuthorDto(a: AuthorRow): AuthorDto
  {
    AuthorDto(a.id, a.name, a.email, a.imageUrl, a.createdAt, a.updatedAt)
  }

  /** The reverse map AuthorDto to Author. */
  function FromAuthorDto(d: AuthorDto): AuthorRow
  {
    AuthorRow(d.id, d.name, d.email, d.imageUrl, d.createdAt, d.updatedAt)
  }

  /** The author profile's map and its reverse are inverse: an AuthorDto carries the whole author. */
  lemma AuthorDtoRoundTrip(a: AuthorRow, d: AuthorDto)
    ensures FromAuthorDto(ToAuthorDto(a)) == a
    ensures ToAuthorDto(FromAuthorDto(d)) == d
  {
  }

  /** Map<Author>(CreateAuthorDto): the author the constructor builds, with a new Id and creation time. */
  function NewAuthorRow(id: Guid, now: Time, d: CreateAuthorDto): AuthorRow
  {
    AuthorRow(id, d.name, d.email, d.imageUrl, now, None)
  }

  /** Map<Blog>(CreateBlogDto): the blog the constructor builds. */
  function NewBlogRow(id: Guid, now: Time, d: CreateBlogDto): BlogRow
  {
    BlogRow(id, d.title, d.body, d.authorId, now, None)
  }

  /** Map<BlogDto>(blog): every field copied, AuthorName from Author.Name, null when the navigation is not loaded. */
  function ToBlogDto(b: BlogRow, author: Option<AuthorRow>): (d: BlogDto)
    ensures d.authorName == (if author.Some? then author.value.name else None)
  {
    BlogDto(b.id, b.title, b.body, b.authorId, if author.Some? then author.value.name else None, b.createdAt, b.updatedAt)
  }

  /** The blog profile's reverse map loses only AuthorName: two blogs with equal DTOs are equal. */
  lemma BlogDtoKeepsBlog(b1: BlogRow, b2: BlogRow, a1: Option<AuthorRow>, a2: Option<AuthorRow>)
    requires ToBlogDto(b1, a1) == ToBlogDto(b2, a2)
    ensures b1 == b2
  {
  }
}
