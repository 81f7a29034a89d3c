/** `RecentBookEntity`: a viewed book's columns stamped with `viewedAt`. */
module RecentBookEntity {
  import opened Wrappers
  import opened Books
  import StoredBook
  import AuthorList
  import Table

  /**
   * The entity `from(book:context:)` creates, stamped with the current time `now`.
   * Inserting it into the context is done by `CoreDataRecentBookRepository.SaveRecentBook`.
   */
  function From(book: Book, now: Timestamp): StoredBook.Row
  {
    StoredBook.Row(StoredBook.Encode(book), now)
  }

  /** `toBook()`. */
  function ToBook(row: StoredBook.Row, parseUrl: string -> Option<string>, now: Timestamp): Book
  {
    StoredBook.Decode(row.columns, parseUrl, now)
  }

  /** A recent row reads back as the book it was created from, under the conditions of `StoredBook.RoundTrip`. */
  lemma RoundTrip(book: Book, viewedAt: Timestamp, parseUrl: string -> Option<string>, now: Timestamp)
    ensures ToBook(From(book, viewedAt), parseUrl, now) == book <==>
      && AuthorList.AllStorable(book.authors)
      && book.salePrice != Some(0)
      && StoredBook.ThumbnailSurvives(book.thumbnail, parseUrl)
  {
    StoredBook.RoundTrip(book, parseUrl, now);
  }

  /**
   * A new entity stamped `viewedAt` with the current time is the newest row of a table whose
   * stamps all precede `now`, and, by `StoredBook.PlainFieldsRoundTrip`, its title, contents,
   * publisher, date, price and status read back unchanged.
   */
  lemma NewEntityIsStampedNow(rows: seq<StoredBook.Row>, book: Book, now: Timestamp,
                              parseUrl: string -> Option<string>, clock: Timestamp)
    requires Table.StampsIncreasing(rows) && Table.Later(now, rows)
    ensures Table.StampsIncreasing(rows + [From(book, now)])
    ensures Table.NewestFirst(rows + [From(book, now)])[0] == From(book, now)
    ensures var b := ToBook(From(book, now), parseUrl, clock);
      && b.title == book.title && b.contents == book.contents && b.publisher == book.publisher
      && b.publishedDate == book.publishedDate && b.price == book.price && b.status == book.status
  {
    StoredBook.PlainFieldsRoundTrip(book, parseUrl, clock);
  }
}
