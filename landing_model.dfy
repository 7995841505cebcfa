/**
 * The content records of landing/models.py: `Item`, `Book` and `News`,
 * with their length limits, uniqueness, defaults, default ordering, string
 * forms and the cascade from a News item to its author.
 */
module LandingModel {
  import opened Wrappers
  import opened UserModel
  import Ordering

  type ItemId = nat
  type BookId = nat
  type NewsId = nat

  /** `max_length` of `Item.name`, `Book.title`, `Book.author` and `News.title`. */
  const TextMaxLength := 255
  /** `max_length` of `Book.isbn`. */
  const IsbnMaxLength := 13

  datatype Item = Item(name: string, description: string, createdAt: Timestamp)

  /**
   * `author` is free text (the writer's name), not a user reference;
   * `coverImage` is optional (`blank=True, null=True`).
   */
  datatype Book = Book(
    title: string,
    author: string,
    description: string,
    isbn: string,
    yearPublished: int,
    pages: int,
    coverImage: Option<string>,
    createdAt: Timestamp,
    updatedAt: Timestamp)

  /** `author` is a required reference to a user; `image` is optional. */
  datatype News = News(
    title: string,
    content: string,
    author: UserId,
    image: Option<string>,
    isPublished: bool,
    createdAt: Timestamp,
    updatedAt: Timestamp)

  predicate ItemFits(i: Item) { |i.name| <= TextMaxLength }

  predicate BookFits(b: Book) {
    |b.title| <= TextMaxLength && |b.author| <= TextMaxLength && |b.isbn| <= IsbnMaxLength
  }

  predicate NewsFits(n: News) { |n.title| <= TextMaxLength }

  /** The unique constraint on `Book.isbn`. */
  predicate UniqueIsbns(books: map<BookId, Book>) {
    forall a, b :: a in books && b in books && books[a].isbn == books[b].isbn ==> a == b
  }

  predicate IsbnTaken(books: map<BookId, Book>, isbn: string) {
    exists id :: id in books && books[id].isbn == isbn
  }

  /** Adding a book whose ISBN is not yet taken keeps ISBNs unique. */
  lemma AddBookKeepsIsbnsUnique(books: map<BookId, Book>, id: BookId, b: Book)
    requires UniqueIsbns(books) && id !in books && !IsbnTaken(books, b.isbn)
    ensures UniqueIsbns(books[id := b])
  {
  }

  /** `Item.__str__`. */
  function ItemText(i: Item): string {
    i.name
  }

  /** `Book.__str__`: "title - author". */
  function BookText(b: Book): (s: string)
    ensures |s| == |b.title| + 3 + |b.author|
    ensures s[..|b.title|] == b.title
    ensures s[|b.title|..|b.title| + 3] == " - "
    ensures s[|b.title| + 3..] == b.author
  {
    b.title + " - " + b.author
  }

  /** `News.__str__`. */
  function NewsText(n: News): string {
    n.title
  }

  /**
   * A News row as `objects.create` makes it: both timestamps set to the time
   * of creation, `image` empty and `is_published` true unless given.
   */
  function NewNews(title: string, content: string, author: UserId, now: Timestamp,
                   image: Option<string> := None, isPublished: bool := true): (n: News)
    ensures n.title == title && n.content == content && n.author == author
    ensures n.createdAt == now && n.updatedAt == now
  {
    News(title, content, author, image, isPublished, now, now)
  }

  function BookCreated(b: Book): int { b.createdAt }
  function NewsCreated(n: News): int { n.createdAt }

  /** `Book.Meta.ordering = ["-created_at"]`. */
  function BooksInOrder(books: seq<Book>): (r: seq<Book>)
    ensures Ordering.NewestFirst(r, BookCreated)
    ensures multiset(r) == multiset(books)
  {
    Ordering.SortNewestFirst(books, BookCreated)
  }

  /** `News.Meta.ordering = ["-created_at"]`. */
  function NewsInOrder(news: seq<News>): (r: seq<News>)
    ensures Ordering.NewestFirst(r, NewsCreated)
    ensures multiset(r) == multiset(news)
  {
    Ordering.SortNewestFirst(news, NewsCreated)
  }

  /** Every News item refers to an existing user. */
  predicate AuthorsExist(news: map<NewsId, News>, users: set<UserId>) {
    forall id :: id in news ==> news[id].author in users
  }

  /** `on_delete=CASCADE`: deleting a user deletes exactly their News. */
  function RemoveAuthoredBy(news: map<NewsId, News>, user: UserId): (r: map<NewsId, News>)
    ensures forall id :: id in r <==> id in news && news[id].author != user
    ensures forall id :: id in r ==> r[id] == news[id]
  {
    map id | id in news && news[id].author != user :: news[id]
  }

  /** After the cascade, every remaining News item still has an existing author. */
  lemma CascadeKeepsAuthorsExisting(news: map<NewsId, News>, users: set<UserId>, user: UserId)
    requires AuthorsExist(news, users)
    ensures AuthorsExist(RemoveAuthoredBy(news, user), users - {user})
  {
  }
}
