/** `CoreDataBookmarkRepository`: the bookmark table behind add, remove, list and membership. */
module BookmarkRepository {
  import opened Wrappers
  import opened Books
  import opened StoredBook
  import opened Table
  import BookmarkEntity

  /** What `fetchBookmarks` delivers for a table: every row, newest `createdAt` first, as a `Book`. */
  function Listed(rows: seq<Row>, parseUrl: string -> Option<string>, now: Timestamp): (books: seq<Book>)
  {
    seq(|rows|, k requires 0 <= k < |rows| => BookmarkEntity.ToDomain(rows[|rows| - 1 - k], parseUrl, now))
  }

  /**
   * The repository over the shared context. `rows` is the committed bookmark table;
   * each method builds its changes and commits them with one assignment, as `save()` does.
   */
  class CoreDataBookmarkRepository {
    var rows: seq<Row>

    ghost predicate Valid()
      reads this
    {
      StampsIncreasing(rows)
    }

    /**
     * A repository over the store as it stands: `stored` is the committed table, which is
     * empty on a fresh install and otherwise holds what earlier `save()`s committed.
     */
    constructor (stored: seq<Row>)
      requires StampsIncreasing(stored)
      ensures Valid() && rows == stored
    {
      rows := stored;
    }

    /** `addBookmark`: always inserts one new entity stamped `now`, with no check for the title. */
    method AddBookmark(book: Book, now: Timestamp)
      requires Valid() && Later(now, rows)
      modifies this
      ensures Valid()
      ensures rows == old(rows) + [BookmarkEntity.From(book, now)]
    {
      var entity := BookmarkEntity.From(book, now);
      rows := rows + [entity];
    }

    /** `removeBookmark`: fetches the rows with the book's title, deletes each, and saves. */
    method RemoveBookmark(book: Book)
      requires Valid()
      modifies this
      ensures Valid()
      ensures rows == WithoutTitle(old(rows), book.title)
    {
      var current := rows;
      var kept := DeleteTitle(current, book.title);
      WithoutTitleKeepsStamps(current, book.title);
      rows := kept;
    }

    /** `fetchBookmarks`: one book per row, sorted on `createdAt` descending. */
    method FetchBookmarks(parseUrl: string -> Option<string>, now: Timestamp) returns (books: seq<Book>)
      requires Valid()
      ensures books == Listed(rows, parseUrl, now)
      ensures |books| == |rows|
    {
      var current := rows;
      books := [];
      var i := |current|;
      while i > 0
        invariant 0 <= i <= |current|
        invariant |books| == |current| - i
        invariant forall k :: 0 <= k < |books| ==> books[k] == BookmarkEntity.ToDomain(current[|current| - 1 - k], parseUrl, now)
      {
        i := i - 1;
        books := books + [BookmarkEntity.ToDomain(current[i], parseUrl, now)];
      }
    }

    /** `isBookmarked`: counts the rows with the book's title and answers whether there is one. */
    method IsBookmarked(book: Book) returns (found: bool)
      ensures found <==> CountTitle(rows, book.title) > 0
      ensures found <==> exists i :: 0 <= i < |rows| && HasTitle(rows[i], book.title)
    {
      var current := rows;
      var count := 0;
      var i := 0;
      while i < |current|
        invariant 0 <= i <= |current|
        invariant count == CountTitle(current[..i], book.title)
      {
        assert current[..i + 1][..i] == current[..i];
        if HasTitle(current[i], book.title) {
          count := count + 1;
        }
        i := i + 1;
      }
      assert current[..i] == current;
      found := count > 0;
    }
  }

  /** The listing is the table's sorted fetch: a permutation sorted newest first, one book per row. */
  lemma ListedIsSortedFetch(rows: seq<Row>, parseUrl: string -> Option<string>, now: Timestamp)
    requires StampsIncreasing(rows)
    ensures NewestFirstOrder(NewestFirst(rows)) && multiset(NewestFirst(rows)) == multiset(rows)
    ensures forall k :: 0 <= k < |rows| ==>
      Listed(rows, parseUrl, now)[k] == BookmarkEntity.ToDomain(NewestFirst(rows)[k], parseUrl, now)
  {
    NewestFirstIsSortedFetch(rows);
  }

  /** Adding grows the table by exactly one row, leaves the old rows alone, and makes the title bookmarked. */
  lemma {:induction false} AddThenBookmarked(rows: seq<Row>, book: Book, now: Timestamp)
    ensures |rows + [BookmarkEntity.From(book, now)]| == |rows| + 1
    ensures (rows + [BookmarkEntity.From(book, now)])[..|rows|] == rows
    ensures CountTitle(rows + [BookmarkEntity.From(book, now)], book.title) == CountTitle(rows, book.title) + 1
  {
    CountTitleAppend(rows, BookmarkEntity.From(book, now), book.title);
  }

  /** The newest bookmark is listed first. */
  lemma AddedIsListedFirst(rows: seq<Row>, book: Book, now: Timestamp, parseUrl: string -> Option<string>, clock: Timestamp)
    ensures Listed(rows + [BookmarkEntity.From(book, now)], parseUrl, clock)[0]
         == BookmarkEntity.ToDomain(BookmarkEntity.From(book, now), parseUrl, clock)
  {
  }

  /** Removing deletes every row with the title, so it is no longer bookmarked, and other titles keep their rows. */
  lemma RemoveThenNotBookmarked(rows: seq<Row>, book: Book, other: string)
    ensures CountTitle(WithoutTitle(rows, book.title), book.title) == 0
    ensures other != book.title ==> CountTitle(WithoutTitle(rows, book.title), other) == CountTitle(rows, other)
  {
    CountWithoutTitle(rows, book.title, book.title);
    CountWithoutTitle(rows, book.title, other);
  }

  /** Removing a book that is not bookmarked leaves the table unchanged. */
  lemma RemoveAbsentIsNoOp(rows: seq<Row>, book: Book)
    requires CountTitle(rows, book.title) == 0
    ensures WithoutTitle(rows, book.title) == rows
  {
    WithoutAbsentTitle(rows, book.title);
  }
}
