/**
 * The nine book columns shared by both Core Data entities, and the two conversions
 * between a `Book` and those columns. Core Data string and date attributes are optional,
 * so they are `Option`s here; `price` and `salePrice` are scalar attributes that cannot be nil.
 */
module StoredBook {
  import opened Wrappers
  import opened Books
  import AuthorList

  datatype Columns = Columns(
    title: Option<string>,
    authors: Option<string>,
    contents: Option<string>,
    publishedDate: Option<Timestamp>,
    publisher: Option<string>,
    price: int,
    salePrice: int,
    thumbnailURL: Option<string>,
    status: Option<string>)

  /** A stored row: the book columns plus the entity's own timestamp (`createdAt` or `viewedAt`). */
  datatype Row = Row(columns: Columns, stamp: Timestamp)

  /** The field assignments of `from(book:context:)`: authors comma-joined, a missing sale price stored as 0. */
  function Encode(book: Book): (c: Columns)
    ensures c.title == Some(book.title) && c.contents == Some(book.contents)
    ensures c.publisher == Some(book.publisher) && c.status == Some(book.status)
    ensures c.publishedDate == Some(book.publishedDate) && c.price == book.price
    ensures c.authors == Some(AuthorList.Join(book.authors))
    ensures c.salePrice == 0 <==> book.salePrice.None? || book.salePrice == Some(0)
    ensures book.salePrice.Some? ==> c.salePrice == book.salePrice.value
    ensures c.thumbnailURL == book.thumbnail
  {
    Columns(Some(book.title), Some(AuthorList.Join(book.authors)), Some(book.contents),
            Some(book.publishedDate), Some(book.publisher), book.price, book.salePrice.GetOr(0),
            book.thumbnail, Some(book.status))
  }

  /**
   * `toDomain()` / `toBook()`: nil strings read back as "", a nil date as `now` (`Date()`),
   * a stored 0 sale price as no discount; `parseUrl` is `URL(string:)`.
   */
  function Decode(c: Columns, parseUrl: string -> Option<string>, now: Timestamp): (b: Book)
    ensures b.title == c.title.GetOr("") && b.contents == c.contents.GetOr("")
    ensures b.publisher == c.publisher.GetOr("") && b.status == c.status.GetOr("")
    ensures b.authors == AuthorList.Split(c.authors.GetOr(""))
    ensures b.publishedDate == c.publishedDate.GetOr(now) && b.price == c.price
    ensures b.salePrice.None? <==> c.salePrice == 0
    ensures b.salePrice.Some? ==> b.salePrice.value == c.salePrice
    ensures c.thumbnailURL.None? ==> b.thumbnail.None?
    ensures c.thumbnailURL.Some? ==> b.thumbnail == parseUrl(c.thumbnailURL.value)
  {
    Book(c.title.GetOr(""), AuthorList.Split(c.authors.GetOr("")), c.contents.GetOr(""),
         c.publishedDate.GetOr(now), c.publisher.GetOr(""), c.price,
         if c.salePrice == 0 then None else Some(c.salePrice),
         if c.thumbnailURL.Some? then parseUrl(c.thumbnailURL.value) else None,
         c.status.GetOr(""))
  }

  /** `URL(string: url.absoluteString)` gives the same URL back. */
  predicate ThumbnailSurvives(thumbnail: Option<string>, parseUrl: string -> Option<string>) {
    thumbnail.Some? ==> parseUrl(thumbnail.value) == thumbnail
  }

  /** Title, contents, publisher, date, price and status always survive a store and reload. */
  lemma PlainFieldsRoundTrip(book: Book, parseUrl: string -> Option<string>, now: Timestamp)
    ensures var b := Decode(Encode(book), parseUrl, now);
      && b.title == book.title && b.contents == book.contents && b.publisher == book.publisher
      && b.publishedDate == book.publishedDate && b.price == book.price && b.status == book.status
  {
  }

  /** The sale price survives exactly when it is not a present 0, which comes back as absent. */
  lemma SalePriceRoundTrip(book: Book, parseUrl: string -> Option<string>, now: Timestamp)
    ensures Decode(Encode(book), parseUrl, now).salePrice == book.salePrice <==> book.salePrice != Some(0)
    ensures book.salePrice == Some(0) ==> Decode(Encode(book), parseUrl, now).salePrice == None
  {
  }

  /**
   * A book comes back unchanged exactly when every author is non-empty and comma-free,
   * it is not discounted to 0, and its cover URL re-parses to itself.
   */
  lemma RoundTrip(book: Book, parseUrl: string -> Option<string>, now: Timestamp)
    ensures Decode(Encode(book), parseUrl, now) == book <==>
      && AuthorList.AllStorable(book.authors)
      && book.salePrice != Some(0)
      && ThumbnailSurvives(book.thumbnail, parseUrl)
  {
    AuthorList.AuthorsRoundTrip(book.authors);
  }
}
