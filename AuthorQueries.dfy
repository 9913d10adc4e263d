/** GetAuthorByIdQuery.cs: one lookup, a mapped author or NotFound. */
module GetAuthorByIdQuery {
  import opened Wrappers
  import opened Common
  import opened Exceptions
  import opened Entities
  import opened Configurations
  import opened Mapping
  import GenericRepository

  const NotFoundMessage := "Author not found"

  /** GetAuthorByIdQueryHandler.Handle on the committed rows. */
  function Handle(db: Db, id: Guid): (o: Outcome<AuthorDto>)
    ensures o.Raised? <==> id !in db.authors
    ensures o.Raised? ==> o.exc == NotFound(NotFoundMessage)
    ensures o.Returned? ==> o.result == Success(ToAuthorDto(db.authors[id]), "Author retrieved successfully")
  {
    match GenericRepository.GetById(db.authors, id)
    case None => Raised(NotFound(NotFoundMessage))
    case Some(a) => Returned(Success(ToAuthorDto(a), "Author retrieved successfully"))
  }

  /** A found author is the one with the requested Id, returned with status 200 and all its fields. */
  lemma FoundAuthorIsRequested(db: Db, id: Guid)
    requires AuthorsKeyed(db)
    requires Handle(db, id).Returned?
    ensures Handle(db, id).result.StatusCode == 200 && Handle(db, id).result.IsSuccess
    ensures Handle(db, id).result.Data.value.id == id
    ensures FromAuthorDto(Handle(db, id).result.Data.value) == db.authors[id]
  {
  }
}

/** GetAllAuthorsQuery.cs: every author, mapped, always a success. */
module GetAllAuthorsQuery {
  import opened Wrappers
  import opened Common
  import opened Exceptions
  import opened Entities
  import opened Configurations
  import opened Mapping
  import GenericRepository

  /** authors.Select(Map<AuthorDto>). */
  function ToDtos(rows: seq<AuthorRow>): (r: seq<AuthorDto>)
    ensures |r| == |rows|
    ensures forall i :: 0 <= i < |rows| ==> r[i] == ToAuthorDto(rows[i])
  {
    if rows == [] then [] else [ToAuthorDto(rows[0])] + ToDtos(rows[1..])
  }

  /** GetAllAutorsQueryHandler.Handle on the committed rows. */
  function Handle(db: Db): (o: Outcome<seq<AuthorDto>>)
    ensures o.Returned? && o.result.IsSuccess && o.result.Data.Some? && o.result.StatusCode == 200 && o.result.Message == "Success"
    ensures |o.result.Data.value| == |db.authors|
  {
    Returned(Success(ToDtos(GenericRepository.GetAll(db.authors))))
  }

  /** Every stored author's DTO is among the DTOs of GetAll's rows. */
  lemma StoredAuthorsListed(db: Db, k: Guid)
    requires k in db.authors
    ensures ToAuthorDto(db.authors[k]) in ToDtos(GenericRepository.GetAll(db.authors))
  {
    var rows := GenericRepository.GetAll(db.authors);
    var i :| 0 <= i < |rows| && rows[i] == db.authors[k];
    assert ToDtos(rows)[i] == ToAuthorDto(db.authors[k]);
  }

  /** Every DTO of GetAll's rows maps back to a stored author. */
  lemma ListedAuthorsStored(db: Db, i: int)
    requires 0 <= i < |ToDtos(GenericRepository.GetAll(db.authors))|
    ensures FromAuthorDto(ToDtos(GenericRepository.GetAll(db.authors))[i]) in db.authors.Values
  {
    var rows := GenericRepository.GetAll(db.authors);
    assert FromAuthorDto(ToDtos(rows)[i]) == rows[i];
  }

  /** One DTO per stored author, in GetAll order, and nothing else. */
  lemma OneDtoPerAuthor(db: Db)
    ensures forall k :: k in db.authors ==> ToAuthorDto(db.authors[k]) in Handle(db).result.Data.value
    ensures forall i :: 0 <= i < |Handle(db).result.Data.value| ==> FromAuthorDto(Handle(db).result.Data.value[i]) in db.authors.Values
  {
    var dtos := ToDtos(GenericRepository.GetAll(db.authors));
    assert Handle(db).result.Data.value == dtos;
    forall k | k in db.authors ensures ToAuthorDto(db.authors[k]) in dtos {
      StoredAuthorsListed(db, k);
    }
    forall i | 0 <= i < |dtos| ensures FromAuthorDto(dtos[i]) in db.authors.Values {
      ListedAuthorsStored(db, i);
    }
  }

  /** An empty store gives a success with an empty list, not an error. */
  lemma EmptyStoreIsEmptySuccess(db: Db)
    requires db.authors == map[]
    ensures Handle(db) == Returned(Success([]))
  {
    assert |GenericRepository.GetAll(db.authors)| == 0;
  }
}
