/** `CoreDataRecentBookRepository`: the recently-viewed table, deduplicated by title and capped at ten rows. */
module RecentBookRepository {
  import opened Wrappers
  import opened Books
  import opened StoredBook
  import opened Table
  import RecentBookEntity

  /** `maxRecentBooks`. */
  const MaxRecentBooks: nat := 10

  /**
   * The rows left after the overflow is deleted. The source fetches the table sorted on
   * `viewedAt` descending and deletes `dropFirst(MaxRecentBooks)` of it; with increasing stamps
   * those are the oldest rows, so the newest `MaxRecentBooks` rows remain (see `TrimKeepsNewest`).
   */
  function Trim(rows: seq<Row>): (r: seq<Row>)
    ensures |r| <= MaxRecentBooks && |r| <= |rows|
    ensures |rows| <= MaxRecentBooks ==> r == rows
    ensures r == rows[|rows| - |r|..]
  {
    if |rows| > MaxRecentBooks then rows[|rows| - MaxRecentBooks..] else rows
  }

  /** The table after `saveRecentBook(book)` at time `now`: delete the title, insert it stamped `now`, trim. */
  function Saved(rows: seq<Row>, book: Book, now: Timestamp): seq<Row> {
    Trim(WithoutTitle(rows, book.title) + [RecentBookEntity.From(book, now)])
  }

  /** `toBook()` applied to each row, in order. */
  function ToBooks(rows: seq<Row>, parseUrl: string -> Option<string>, now: Timestamp): (books: seq<Book>)
  {
    seq(|rows|, k requires 0 <= k < |rows| => RecentBookEntity.ToBook(rows[k], parseUrl, now))
  }

  /** What `fetchRecentBooks` delivers: the newest `MaxRecentBooks` rows, newest `viewedAt` first, as books. */
  function Fetched(rows: seq<Row>, parseUrl: string -> Option<string>, now: Timestamp): (books: seq<Book>)
    ensures |books| == if |rows| < MaxRecentBooks then |rows| else MaxRecentBooks
    ensures forall k :: 0 <= k < |books| ==> books[k] == RecentBookEntity.ToBook(rows[|rows| - 1 - k], parseUrl, now)
  {
    var sorted := NewestFirst(rows);
    ToBooks(if |sorted| < MaxRecentBooks then sorted else sorted[..MaxRecentBooks], parseUrl, now)
  }

  class CoreDataRecentBookRepository {
    var rows: seq<Row>

    ghost predicate Valid()
      reads this
    {
      StampsIncreasing(rows) && TitlesDistinct(rows) && |rows| <= MaxRecentBooks
    }

    /**
     * A repository over the store as it stands: `stored` is the committed table, which is
     * empty on a fresh install and otherwise holds what earlier `saveRecentBook` calls committed.
     */
    constructor (stored: seq<Row>)
      requires StampsIncreasing(stored) && TitlesDistinct(stored) && |stored| <= MaxRecentBooks
      ensures Valid() && rows == stored
    {
      rows := stored;
    }

    /**
     * `saveRecentBook`: deletes the rows with the book's title, inserts a new row stamped `now`,
     * deletes everything past the ten newest, and saves all three steps together.
     */
    method SaveRecentBook(book: Book, now: Timestamp)
      requires Valid() && Later(now, rows)
      modifies this
      ensures Valid()
      ensures rows == Saved(old(rows), book, now)
    {
      var current := rows;
      var kept := DeleteTitle(current, book.title);
      var staged := kept + [RecentBookEntity.From(book, now)];
      if |staged| > MaxRecentBooks {
        staged := staged[|staged| - MaxRecentBooks..];
      }
      assert staged == Trim(kept + [RecentBookEntity.From(book, now)]);
      SavedKeepsInvariant(current, book, now);
      rows := staged;
    }

    /** `fetchRecentBooks`: sorted on `viewedAt` descending with a fetch limit of `MaxRecentBooks`. */
    method FetchRecentBooks(parseUrl: string -> Option<string>, now: Timestamp) returns (books: seq<Book>)
      requires Valid()
      ensures books == Fetched(rows, parseUrl, now)
      ensures |books| == |rows| <= MaxRecentBooks
    {
      var current := rows;
      books := [];
      var i := |current|;
      while i > 0 && |books| < MaxRecentBooks
        invariant 0 <= i <= |current|
        invariant |books| == |current| - i
        invariant forall k :: 0 <= k < |books| ==> books[k] == RecentBookEntity.ToBook(current[|current| - 1 - k], parseUrl, now)
      {
        i := i - 1;
        books := books + [RecentBookEntity.ToBook(current[i], parseUrl, now)];
      }
      FetchedIsNewestFirst(current, books, parseUrl, now);
    }
  }

  /** A table within the cap is fetched whole: one book per row, newest first. */
  lemma FetchedIsNewestFirst(rows: seq<Row>, books: seq<Book>, parseUrl: string -> Option<string>, now: Timestamp)
    requires |rows| <= MaxRecentBooks && |books| == |rows|
    requires forall k :: 0 <= k < |books| ==> books[k] == RecentBookEntity.ToBook(rows[|rows| - 1 - k], parseUrl, now)
    ensures books == Fetched(rows, parseUrl, now)
  {
  }

  /** Deleting `dropFirst(MaxRecentBooks)` of the newest-first fetch keeps exactly its first `MaxRecentBooks` rows. */
  lemma TrimKeepsNewest(rows: seq<Row>)
    ensures NewestFirst(Trim(rows)) == NewestFirst(rows)[..|Trim(rows)|]
  {
    var t := Trim(rows);
    assert forall k :: 0 <= k < |t| ==> NewestFirst(t)[k] == t[|t| - 1 - k] == rows[|rows| - 1 - k];
  }

  /** After a save exactly one row carries the saved title. */
  lemma SavedHasOneRowForTitle(rows: seq<Row>, book: Book, now: Timestamp)
    ensures CountTitle(Saved(rows, book, now), book.title) == 1
  {
    SavedEvictsOnlyOldest(rows, book, now);
    var w := WithoutTitle(rows, book.title);
    var keep := if |w| < MaxRecentBooks then |w| else MaxRecentBooks - 1;
    var tail, entity := w[|w| - keep..], RecentBookEntity.From(book, now);
    assert Saved(rows, book, now) == tail + [entity];
    CountWithoutTitle(rows, book.title, book.title);
    NoTitleInSuffix(w, |w| - keep, book.title);
    CountTitleAppend(tail, entity, book.title);
  }

  /** A save evicts only the oldest rows: it keeps the newest rows of the other titles, up to nine, then the saved one. */
  lemma SavedEvictsOnlyOldest(rows: seq<Row>, book: Book, now: Timestamp)
    ensures var w := WithoutTitle(rows, book.title);
      var keep := if |w| < MaxRecentBooks then |w| else MaxRecentBooks - 1;
      Saved(rows, book, now) == w[|w| - keep..] + [RecentBookEntity.From(book, now)]
  {
  }

  /** A save never leaves more than `MaxRecentBooks` rows, and re-saving a stored title does not add a row. */
  lemma SavedSize(rows: seq<Row>, book: Book, now: Timestamp)
    ensures |Saved(rows, book, now)| <= MaxRecentBooks
    ensures CountTitle(rows, book.title) > 0 ==> |Saved(rows, book, now)| <= |rows|
  {
  }

  /** The saved book is the newest row, so `fetchRecentBooks` lists it first. */
  lemma SavedIsFetchedFirst(rows: seq<Row>, book: Book, now: Timestamp, parseUrl: string -> Option<string>, clock: Timestamp)
    ensures NewestFirst(Saved(rows, book, now))[0] == RecentBookEntity.From(book, now)
    ensures Fetched(Saved(rows, book, now), parseUrl, clock)[0]
         == RecentBookEntity.ToBook(RecentBookEntity.From(book, now), parseUrl, clock)
  {
  }

  /** Saving a new title into a full table evicts exactly the oldest row. */
  lemma SaveIntoFullTableEvictsOldest(rows: seq<Row>, book: Book, now: Timestamp)
    requires |rows| == MaxRecentBooks && CountTitle(rows, book.title) == 0
    ensures Saved(rows, book, now) == rows[1..] + [RecentBookEntity.From(book, now)]
  {
    WithoutAbsentTitle(rows, book.title);
    var s := rows + [RecentBookEntity.From(book, now)];
    assert Saved(rows, book, now) == s[1..];
  }

  /** A save keeps stamps increasing, titles distinct and the table within the cap. */
  lemma SavedKeepsInvariant(rows: seq<Row>, book: Book, now: Timestamp)
    requires StampsIncreasing(rows) && TitlesDistinct(rows) && Later(now, rows)
    ensures var r := Saved(rows, book, now);
      StampsIncreasing(r) && TitlesDistinct(r) && |r| <= MaxRecentBooks
  {
    var w := WithoutTitle(rows, book.title);
    var entity := RecentBookEntity.From(book, now);
    WithoutTitleKeepsStamps(rows, book.title);
    WithoutTitleKeepsTitlesDistinct(rows, book.title);
    WithoutTitleKeepsLater(rows, book.title, now);
    var s := w + [entity];
    assert StampsIncreasing(s);
    assert TitlesDistinct(s);
  }

  /** `MockRecentBookRepository.fetchRecentBooks`: all sixteen fixture books, in order. */
  function MockFetchRecentBooks(): (books: seq<Book>)
    ensures |books| == 16 && DistinctTitles(books)
    ensures forall i :: 0 <= i < |books| ==> books[i] == MockData()[i]
  {
    MockDataTitlesDistinct();
    MockData()
  }

  /** `MockRecentBookRepository.saveRecentBook`: completes with no effect. */
  function MockSaveRecentBook(book: Book): (r: Outcome<()>)
    ensures r == Success(())
  {
    Success(())
  }
}
