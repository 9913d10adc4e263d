/**
 * The FluentValidation rule sets (CreateAuthorCommandValidator.cs,
 * CreateBlogCommandValidator.cs, DeleteAuthorCommandValidator.cs) as
 * functions from a command to the failures it produces, in rule order. Every
 * rule of a chain runs (the default cascade), and a rule that fails adds one
 * failure. The email-address check and the URL pattern are parameters.
 */
module Validators {
  import opened Wrappers
  import opened Entities
  import opened Configurations
  import opened Exceptions
  import opened Mapping

  /** The library-defined formats: EmailAddress() and the ImageUrl regular expression. */
  datatype Formats = Formats(isEmailAddress: string -> bool, isImageUrl: string -> bool)

  /** char.IsWhiteSpace: the Unicode separators and the control characters U+0009-U+000D and U+0085. */
  predicate IsWhiteSpace(c: char)
  {
    || ('\U{0009}' <= c <= '\U{000D}') || c == '\U{0020}' || c == '\U{0085}' || c == '\U{00A0}'
    || c == '\U{1680}' || ('\U{2000}' <= c <= '\U{200A}') || c == '\U{2028}' || c == '\U{2029}'
    || c == '\U{202F}' || c == '\U{205F}' || c == '\U{3000}'
  }

  /** What NotEmpty() rejects for a string: null, empty or whitespace only. */
  predicate Blank(t: Text)
  {
    t.None? || forall i :: 0 <= i < |t.value| ==> IsWhiteSpace(t.value[i])
  }

  /** string.IsNullOrEmpty. */
  predicate NullOrEmpty(t: Text)
  {
    t.None? || t.value == ""
  }

  /** MaximumLength(n): null passes. */
  predicate AtMost(t: Text, n: nat)
  {
    t.None? || |t.value| <= n
  }

  /** MinimumLength(n): null passes. */
  predicate AtLeast(t: Text, n: nat)
  {
    t.None? || |t.value| >= n
  }

  /** One validator of a rule: no failure when it holds, one when it does not. */
  function Check(property: string, holds: bool, message: string): (r: seq<ValidationFailure>)
    ensures holds <==> r == []
    ensures !holds ==> r == [ValidationFailure(property, message)]
  {
    if holds then [] else [ValidationFailure(property, message)]
  }

  /** The failures whose property is `property`. */
  function On(errs: seq<ValidationFailure>, property: string): (r: seq<ValidationFailure>)
    ensures |r| <= |errs|
    ensures forall i :: 0 <= i < |r| ==> r[i] in errs && r[i].propertyName == property
  {
    if errs == [] then []
    else if errs[0].propertyName == property then [errs[0]] + On(errs[1..], property)
    else On(errs[1..], property)
  }

  lemma OnConcat(a: seq<ValidationFailure>, b: seq<ValidationFailure>, property: string)
    ensures On(a + b, property) == On(a, property) + On(b, property)
  {
    if a == [] {
      assert a + b == b;
    } else {
      assert (a + b)[0] == a[0];
      assert (a + b)[1..] == a[1..] + b;
      OnConcat(a[1..], b, property);
    }
  }

  /** A single validator's failure is kept by On exactly for its own property. */
  lemma OnCheck(property: string, holds: bool, message: string, q: string)
    ensures On(Check(property, holds, message), q) == if property == q then Check(property, holds, message) else []
  {
  }

  // ---------------------------------------------------------------------------
  // CreateAuthorCommandValidator
  // ---------------------------------------------------------------------------

  function NameFailures(d: CreateAuthorDto): seq<ValidationFailure>
  {
    Check("AuthorDto.Name", !Blank(d.name), "Name is required.")
    + Check("AuthorDto.Name", AtMost(d.name, NameMaxLength), "Name cannot exceed 100 characters.")
  }

  function EmailFailures(d: CreateAuthorDto, f: Formats): seq<ValidationFailure>
  {
    Check("AuthorDto.Email", !Blank(d.email), "Email is required.")
    + Check("AuthorDto.Email", d.email.None? || f.isEmailAddress(d.email.value), "A valid email address is required")
    + Check("AuthorDto.Email", AtMost(d.email, EmailMaxLength), "Email cannot exceed 255 characters.")
  }

  /** The ImageUrl rule runs only when the URL is neither null nor empty. */
  function ImageUrlFailures(d: CreateAuthorDto, f: Formats): seq<ValidationFailure>
  {
    if NullOrEmpty(d.imageUrl) then []
    else
      Check("AuthorDto.ImageUrl", AtMost(d.imageUrl, ImageUrlMaxLength), "Image Url cannot exceed 500 characters.")
      + Check("AuthorDto.ImageUrl", f.isImageUrl(d.imageUrl.value), "A valid URL is required for ImageUrl.")
  }

  /** The whole rule set; a null DTO fails NotNull and the field rules are skipped. */
  function ValidateCreateAuthor(dto: Option<CreateAuthorDto>, f: Formats): (errs: seq<ValidationFailure>)
    ensures dto.None? ==> errs == [ValidationFailure("AuthorDto", "Author data is required.")]
  {
    if dto.None? then Check("AuthorDto", false, "Author data is required.")
    else NameFailures(dto.value) + EmailFailures(dto.value, f) + ImageUrlFailures(dto.value, f)
  }

  /** A DTO is accepted exactly when its name is non-blank and fits, its email is non-blank, well formed and fits, and an ImageUrl given fits and matches. */
  lemma CreateAuthorAcceptedIff(d: CreateAuthorDto, f: Formats)
    ensures ValidateCreateAuthor(Some(d), f) == [] <==>
              && !Blank(d.name) && |d.name.value| <= NameMaxLength
              && !Blank(d.email) && f.isEmailAddress(d.email.value) && |d.email.value| <= EmailMaxLength
              && (!NullOrEmpty(d.imageUrl) ==> |d.imageUrl.value| <= ImageUrlMaxLength && f.isImageUrl(d.imageUrl.value))
  {
  }

  /** Every accepted DTO builds an author that meets the column constraints of the Authors table. */
  lemma CreateAuthorAcceptedFitsColumns(d: CreateAuthorDto, f: Formats, id: Guid, now: Time)
    requires ValidateCreateAuthor(Some(d), f) == []
    ensures AuthorColumnsFit(NewAuthorRow(id, now, d))
  {
    CreateAuthorAcceptedIff(d, f);
  }

  lemma NameFailuresOnName(d: CreateAuthorDto)
    ensures On(NameFailures(d), "AuthorDto.Name") == NameFailures(d)
  {
    OnConcat(Check("AuthorDto.Name", !Blank(d.name), "Name is required."),
             Check("AuthorDto.Name", AtMost(d.name, NameMaxLength), "Name cannot exceed 100 characters."), "AuthorDto.Name");
    OnCheck("AuthorDto.Name", !Blank(d.name), "Name is required.", "AuthorDto.Name");
    OnCheck("AuthorDto.Name", AtMost(d.name, NameMaxLength), "Name cannot exceed 100 characters.", "AuthorDto.Name");
  }

  lemma EmailFailuresNotOnName(d: CreateAuthorDto, f: Formats)
    ensures On(EmailFailures(d, f), "AuthorDto.Name") == []
  {
    var c1 := Check("AuthorDto.Email", !Blank(d.email), "Email is required.");
    var c2 := Check("AuthorDto.Email", d.email.None? || f.isEmailAddress(d.email.value), "A valid email address is required");
    var c3 := Check("AuthorDto.Email", AtMost(d.email, EmailMaxLength), "Email cannot exceed 255 characters.");
    OnConcat(c1 + c2, c3, "AuthorDto.Name");
    OnConcat(c1, c2, "AuthorDto.Name");
    OnCheck("AuthorDto.Email", !Blank(d.email), "Email is required.", "AuthorDto.Name");
    OnCheck("AuthorDto.Email", d.email.None? || f.isEmailAddress(d.email.value), "A valid email address is required", "AuthorDto.Name");
    OnCheck("AuthorDto.Email", AtMost(d.email, EmailMaxLength), "Email cannot exceed 255 characters.", "AuthorDto.Name");
  }

  lemma ImageUrlFailuresNotOnName(d: CreateAuthorDto, f: Formats)
    ensures On(ImageUrlFailures(d, f), "AuthorDto.Name") == []
  {
    if !NullOrEmpty(d.imageUrl) {
      var c1 := Check("AuthorDto.ImageUrl", AtMost(d.imageUrl, ImageUrlMaxLength), "Image Url cannot exceed 500 characters.");
      var c2 := Check("AuthorDto.ImageUrl", f.isImageUrl(d.imageUrl.value), "A valid URL is required for ImageUrl.");
      OnConcat(c1, c2, "AuthorDto.Name");
      OnCheck("AuthorDto.ImageUrl", AtMost(d.imageUrl, ImageUrlMaxLength), "Image Url cannot exceed 500 characters.", "AuthorDto.Name");
      OnCheck("AuthorDto.ImageUrl", f.isImageUrl(d.imageUrl.value), "A valid URL is required for ImageUrl.", "AuthorDto.Name");
    }
  }

  /** The name is reported exactly when it is blank or longer than 100 characters, and only by the name rule. */
  lemma NameReportedIff(d: CreateAuthorDto, f: Formats)
    ensures On(ValidateCreateAuthor(Some(d), f), "AuthorDto.Name") == NameFailures(d)
    ensures NameFailures(d) != [] <==> Blank(d.name) || |d.name.value| > NameMaxLength
  {
    OnConcat(NameFailures(d) + EmailFailures(d, f), ImageUrlFailures(d, f), "AuthorDto.Name");
    OnConcat(NameFailures(d), EmailFailures(d, f), "AuthorDto.Name");
    NameFailuresOnName(d);
    EmailFailuresNotOnName(d, f);
    ImageUrlFailuresNotOnName(d, f);
  }

  /** A null or empty ImageUrl triggers no ImageUrl rule. */
  lemma EmptyImageUrlNotChecked(d: CreateAuthorDto, f: Formats)
    requires NullOrEmpty(d.imageUrl)
    ensures ValidateCreateAuthor(Some(d), f) == NameFailures(d) + EmailFailures(d, f)
    ensures forall i :: 0 <= i < |ValidateCreateAuthor(Some(d), f)| ==>
              ValidateCreateAuthor(Some(d), f)[i].propertyName != "AuthorDto.ImageUrl"
  {
    var n: seq<ValidationFailure> := NameFailures(d);
    var e: seq<ValidationFailure> := EmailFailures(d, f);
    assert n + e + [] == n + e;
    forall i | 0 <= i < |n + e| ensures (n + e)[i].propertyName != "AuthorDto.ImageUrl" {
      if i >= |n| { assert (n + e)[i] == e[i - |n|]; }
    }
  }

  // ---------------------------------------------------------------------------
  // CreateBlogCommandValidator
  // ---------------------------------------------------------------------------

  function TitleFailures(d: CreateBlogDto): seq<ValidationFailure>
  {
    Check("BlogDto.Title", !Blank(d.title), "Title is required")
    + Check("BlogDto.Title", AtMost(d.title, TitleMaxLength), "Title cannot exceed 200 characters")
  }

  function BodyFailures(d: CreateBlogDto): seq<ValidationFailure>
  {
    Check("BlogDto.Body", !Blank(d.body), "Body is required")
    + Check("BlogDto.Body", AtLeast(d.body, 10), "Body must be at least 10 characters")
  }

  /** The rule set of the blog command. */
  function ValidateCreateBlog(d: CreateBlogDto): (errs: seq<ValidationFailure>)
    ensures forall i :: 0 <= i < |errs| ==> errs[i].propertyName in {"BlogDto.Title", "BlogDto.Body", "BlogDto.AuthorId"}
  {
    TitleFailures(d) + BodyFailures(d)
    + Check("BlogDto.AuthorId", d.authorId != EmptyGuid, "Author ID is required")
  }

  /** A blog command is accepted exactly when title and body are non-blank, the title fits, the body has ten characters and the author id is not Guid.Empty. */
  lemma CreateBlogAcceptedIff(d: CreateBlogDto)
    ensures ValidateCreateBlog(d) == [] <==>
              && !Blank(d.title) && |d.title.value| <= TitleMaxLength
              && !Blank(d.body) && |d.body.value| >= 10
              && d.authorId != EmptyGuid
  {
  }

  /** Every accepted command builds a blog that meets the column constraints of the Blogs table. */
  lemma CreateBlogAcceptedFitsColumns(d: CreateBlogDto, id: Guid, now: Time)
    requires ValidateCreateBlog(d) == []
    ensures BlogColumnsFit(NewBlogRow(id, now, d))
  {
    CreateBlogAcceptedIff(d);
  }

  /** An empty body fails both body rules, NotEmpty and MinimumLength(10); a whitespace body of ten characters fails only the first. */
  lemma BodyRulesRunInTurn(d: CreateBlogDto)
    ensures d.body == Some("") ==> BodyFailures(d) == [ValidationFailure("BlogDto.Body", "Body is required"),
                                                      ValidationFailure("BlogDto.Body", "Body must be at least 10 characters")]
    ensures d.body == Some("          ") ==> BodyFailures(d) == [ValidationFailure("BlogDto.Body", "Body is required")]
  {
    if d.body == Some("          ") {
      assert |d.body.value| == 10;
    }
  }

  // ---------------------------------------------------------------------------
  // DeleteAuthorCommandValidator
  // ---------------------------------------------------------------------------

  /** NotEmpty() on a Guid: anything but Guid.Empty. */
  predicate GuidNotEmpty(id: Guid)
  {
    id != EmptyGuid
  }

  /** The rule set of the delete command; only the Id is inspected. */
  function ValidateDeleteAuthor(id: Guid): (errs: seq<ValidationFailure>)
    ensures forall i :: 0 <= i < |errs| ==> errs[i].propertyName == "Id"
  {
    Check("Id", GuidNotEmpty(id), "Author ID cannot be empty.")
    + Check("Id", id != EmptyGuid, "Author ID must be a valid GUID and not Guid.Empty.")
  }

  /** The two rules accept the same ids: Guid.Empty fails both, every other id passes both. */
  lemma DeleteRulesAgree(id: Guid)
    ensures ValidateDeleteAuthor(id) == [] <==> id != EmptyGuid
    ensures id == EmptyGuid ==> |ValidateDeleteAuthor(id)| == 2
  {
  }
}
