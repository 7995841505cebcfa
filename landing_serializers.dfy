/**
 * The serializers of landing/serializers.py: their read-only field sets,
 * the ISBN validator of `BookCreateSerializer` and the ISBN field it sits
 * in, the image URL getters, and `NewsSerializer`'s validation and
 * `create`, which makes the requesting user the author.
 */
module LandingSerializers {
  import opened Wrappers
  import opened UserModel
  import opened LandingModel
  import opened Media
  import opened Serialization
  import opened Store

  const ItemFields := {"id", "name", "description", "created_at"}
  const ItemReadOnly := {"id", "created_at"}

  const BookFields := {"id", "title", "author", "description", "isbn", "year_published", "pages",
                       "cover_image", "cover_image_url", "created_at", "updated_at"}
  /** `read_only_fields` plus the method field `cover_image_url`. */
  const BookReadOnly := {"id", "created_at", "updated_at", "cover_image_url"}

  /** `BookCreateSerializer` declares only writable fields. */
  const BookCreateFields := {"title", "author", "description", "isbn", "year_published", "pages", "cover_image"}

  const NewsFields := {"id", "title", "content", "author", "author_username", "author_email",
                       "image", "image_url", "is_published", "created_at", "updated_at"}
  /** `read_only_fields` plus the method field `image_url`. */
  const NewsReadOnly := {"id", "created_at", "updated_at", "author_username", "author_email", "image_url"}

  /** Item input never sets `id` or `created_at`; `name` and `description` pass through. */
  lemma ItemReadOnlyFields<V>(data: map<string, V>)
    ensures var r := AcceptedInput(data, ItemFields, ItemReadOnly);
      "id" !in r && "created_at" !in r &&
      ("name" in data ==> "name" in r) && ("description" in data ==> "description" in r)
  {
  }

  /** Book input never sets `id`, `created_at` or `updated_at`. */
  lemma BookReadOnlyFields<V>(data: map<string, V>)
    ensures var r := AcceptedInput(data, BookFields, BookReadOnly);
      "id" !in r && "created_at" !in r && "updated_at" !in r && ("isbn" in data ==> "isbn" in r)
    ensures var r := AcceptedInput(data, BookCreateFields, {});
      "id" !in r && "created_at" !in r && "updated_at" !in r && ("isbn" in data ==> "isbn" in r)
  {
  }

  /**
   * News input never sets `id`, the timestamps or the author's username and
   * email; `author` itself is writable (and then overridden by `create`).
   */
  lemma NewsReadOnlyFields<V>(data: map<string, V>)
    ensures var r := AcceptedInput(data, NewsFields, NewsReadOnly);
      "id" !in r && "created_at" !in r && "updated_at" !in r &&
      "author_username" !in r && "author_email" !in r &&
      ("author" in data ==> "author" in r)
  {
  }

  predicate IsDigit(c: char) { '0' <= c <= '9' }

  /** `str.isdigit` on ASCII text: at least one character, all of them digits. */
  predicate AllDigits(s: string) {
    |s| > 0 && forall i :: 0 <= i < |s| ==> IsDigit(s[i])
  }

  /** The pattern `\d{n}`, read one character at a time. */
  predicate DigitRun(s: string, n: nat)
    decreases n
  {
    if n == 0 then s == [] else s != [] && IsDigit(s[0]) && DigitRun(s[1..], n - 1)
  }

  /** An ISBN as the validator promises it: exactly 13 digits. */
  predicate IsIsbn13(s: string) { DigitRun(s, 13) }

  lemma {:induction false} DigitRunMeansDigitsOfLength(s: string, n: nat)
    ensures DigitRun(s, n) <==> |s| == n && forall i :: 0 <= i < |s| ==> IsDigit(s[i])
    decreases n
  {
    if n > 0 && s != [] {
      DigitRunMeansDigitsOfLength(s[1..], n - 1);
      assert forall i :: 1 <= i < |s| ==> s[i] == s[1..][i - 1];
    }
  }

  datatype IsbnError = NotDigits | WrongLength

  /**
   * `BookCreateSerializer.validate_isbn`: the digit check comes first, so a
   * value with a non-digit (or the empty value) always gets `NotDigits`; an
   * all-digit value of another length gets `WrongLength`; a 13-digit value
   * is accepted unchanged.
   */
  function ValidateIsbn(value: string): (r: Result<string, IsbnError>)
    ensures r.Ok? <==> IsIsbn13(value)
    ensures r.Ok? ==> r.value == value
    ensures !AllDigits(value) ==> r == Err(NotDigits)
    ensures AllDigits(value) && |value| != 13 ==> r == Err(WrongLength)
  {
    DigitRunMeansDigitsOfLength(value, 13);
    if !AllDigits(value) then Err(NotDigits)
    else if |value| != 13 then Err(WrongLength)
    else Ok(value)
  }

  /** The errors the `isbn` field of `BookCreateSerializer` can report. */
  datatype IsbnFieldError = Required | BlankValue | TooLong | NotUnique | Invalid(reason: IsbnError)

  /**
   * The whole `isbn` field: a missing or blank value is refused first; then
   * the model's `max_length=13` and unique validators run together; only a
   * value that passes them reaches `validate_isbn`.
   */
  function IsbnField(books: map<BookId, Book>, value: Option<string>): (r: Result<string, set<IsbnFieldError>>)
    ensures r.Ok? <==> value.Some? && IsIsbn13(value.value) && !IsbnTaken(books, value.value)
    ensures r.Ok? ==> r.value == value.value
    ensures r.Err? && Invalid(WrongLength) in r.error ==> value.Some? && |value.value| < 13
    ensures r.Err? && Invalid(NotDigits) in r.error ==> value.Some? && |value.value| <= 13 && !AllDigits(value.value)
  {
    if value.None? then Err({Required})
    else if value.value == "" then Err({BlankValue})
    else
      var v := value.value;
      DigitRunMeansDigitsOfLength(v, 13);
      var errs := (if |v| > IsbnMaxLength then {TooLong} else {}) +
                  (if IsbnTaken(books, v) then {NotUnique} else {});
      if errs != {} then Err(errs)
      else match ValidateIsbn(v)
        case Ok(x) => Ok(x)
        case Err(e) => Err({Invalid(e)})
  }

  /** A book saved with an ISBN the field accepted fits the model and keeps ISBNs unique. */
  lemma AcceptedIsbnFitsModel(books: map<BookId, Book>, value: Option<string>, id: BookId, b: Book)
    requires UniqueIsbns(books) && id !in books
    requires IsbnField(books, value).Ok? && b.isbn == IsbnField(books, value).value
    ensures |b.isbn| <= IsbnMaxLength
    ensures UniqueIsbns(books[id := b])
  {
    DigitRunMeansDigitsOfLength(b.isbn, 13);
    AddBookKeepsIsbnsUnique(books, id, b);
  }

  /** `BookSerializer.get_cover_image_url`. */
  function CoverImageUrl(b: Book, request: Option<Request>, build: UriBuilder): (r: Option<string>)
    ensures r.None? <==> !HasFile(b.coverImage)
    ensures HasFile(b.coverImage) && request.Some? ==> r == Some(build(request.value, FilePath(b.coverImage.value)))
    ensures HasFile(b.coverImage) && request.None? ==> r == Some(FilePath(b.coverImage.value))
  {
    FileUrl(b.coverImage, request, build)
  }

  /** `NewsSerializer.get_image_url`. */
  function NewsImageUrl(n: News, request: Option<Request>, build: UriBuilder): (r: Option<string>)
    ensures r.None? <==> !HasFile(n.image)
    ensures HasFile(n.image) && request.Some? ==> r == Some(build(request.value, FilePath(n.image.value)))
    ensures HasFile(n.image) && request.None? ==> r == Some(FilePath(n.image.value))
  {
    FileUrl(n.image, request, build)
  }

  /** The writable fields of a News payload; `None` is a field left out. */
  datatype NewsInput = NewsInput(
    title: Option<string>,
    content: Option<string>,
    author: Option<UserId>,
    image: Option<string>,
    isPublished: Option<bool>)

  datatype NewsField = TitleField | ContentField | AuthorField

  /** `validated_data` of a valid News payload. */
  datatype NewsData = NewsData(
    title: string,
    content: string,
    author: UserId,
    image: Option<string>,
    isPublished: Option<bool>)

  predicate Blank(v: Option<string>) { v.None? || v.value == "" }

  /**
   * Field validation of `NewsSerializer`: `title` and `content` are
   * required and may not be blank, `title` has at most 255 characters, and
   * `author` (a writable primary-key field) is required and must name an
   * existing user; `image` and `is_published` are optional.
   */
  function ValidateNews(users: map<UserId, User>, input: NewsInput): (r: Result<NewsData, set<NewsField>>)
    ensures r.Err? ==> r.error != {}
    ensures r.Err? ==> (TitleField in r.error <==> Blank(input.title) || |input.title.value| > TextMaxLength)
    ensures r.Err? ==> (ContentField in r.error <==> Blank(input.content))
    ensures r.Err? ==> (AuthorField in r.error <==> input.author.None? || input.author.value !in users)
    ensures r.Ok? ==>
      && input.title == Some(r.value.title) && |r.value.title| <= TextMaxLength && r.value.title != ""
      && input.content == Some(r.value.content) && r.value.content != ""
      && input.author == Some(r.value.author) && r.value.author in users
      && r.value.image == input.image && r.value.isPublished == input.isPublished
  {
    var errs := (if Blank(input.title) || |input.title.value| > TextMaxLength then {TitleField} else {}) +
                (if Blank(input.content) then {ContentField} else {}) +
                (if input.author.None? || input.author.value !in users then {AuthorField} else {});
    if errs != {} then Err(errs)
    else Ok(NewsData(input.title.value, input.content.value, input.author.value, input.image, input.isPublished))
  }

  /** The row `News.objects.create(**validated_data)` makes; a missing `is_published` takes the model default. */
  function NewsRecord(data: NewsData, now: Timestamp): (n: News)
    ensures n.title == data.title && n.content == data.content && n.author == data.author
    ensures n.image == data.image && n.createdAt == now && n.updatedAt == now
    ensures n.isPublished == (data.isPublished.None? || data.isPublished.value)
  {
    match data.isPublished
    case None => NewNews(data.title, data.content, data.author, now, data.image)
    case Some(p) => NewNews(data.title, data.content, data.author, now, data.image, p)
  }

  /**
   * `NewsSerializer.create`: the author in the validated data is replaced
   * by the requesting user before the row is inserted.
   */
  method CreateNews(db: Db, validated: NewsData, requestUser: UserId, now: Timestamp) returns (id: NewsId)
    requires db.Valid() && requestUser in db.users
    modifies db
    ensures db.Valid()
    ensures id !in old(db.news)
    ensures db.news == old(db.news)[id := NewsRecord(validated.(author := requestUser), now)]
    ensures db.news[id].author == requestUser
    ensures db.users == old(db.users) && db.tokens == old(db.tokens)
    ensures db.nextNewsId == old(db.nextNewsId) + 1 && db.nextUserId == old(db.nextUserId)
  {
    var data := validated.(author := requestUser);
    var row := NewsRecord(data, now);
    id := db.InsertNews(row);
  }

  /**
   * Whatever author a client sent, the created row is the same and is
   * authored by the requesting user.
   */
  lemma ClientAuthorIgnored(d1: NewsData, d2: NewsData, requestUser: UserId, now: Timestamp)
    requires d1.(author := d2.author) == d2
    ensures NewsRecord(d1.(author := requestUser), now) == NewsRecord(d2.(author := requestUser), now)
    ensures NewsRecord(d1.(author := requestUser), now).author == requestUser
  {
  }
}
