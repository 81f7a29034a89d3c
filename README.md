# Bookshelf core in Dafny

A model of the state and data layer of Bookshelf, an iOS app that searches a book catalogue, shows a book's
details, and keeps two local lists: bookmarked books and recently viewed books.

What is modelled:

- **`Book` and its fixture** (`Books`). `Book` is the nine-field immutable value, with `status` defaulting to
  "정상판매". `mockData` is the sixteen-book catalogue used by previews and mocks.
- **Search request and response DTOs** (`SearchRequest`, `SearchResponse`). The request fixes sort
  `accuracy`, size 20 and target `title`. The response maps each catalogue document to a `Book`; a sale price
  of 0 or less becomes absent, and the response's own `status` is dropped.
- **Core Data entity conversions** (`StoredBook`, `AuthorList`, `BookmarkEntity`, `RecentBookEntity`). A book
  is stored as nine columns plus a timestamp (`createdAt` or `viewedAt`):
  - authors are joined with "," and split back with empty pieces dropped;
  - a missing sale price is stored as 0;
  - the lemmas state exactly when a stored book reads back unchanged.
- **The two Core Data repositories** (`Table`, `BookmarkRepository`, `RecentBookRepository`). Each is a class
  whose `rows` field is the committed table, in insertion order. Its methods:
  - delete the rows that match `title == %@` in a loop;
  - insert new rows stamped with the current time;
  - fetch newest first;
  - for the recents table, trim to the ten newest rows.
- **`BookRepository` and `MockBookRepository`** (`BookRepository`): the real search through a data source, the
  stubbed recents, and the fixture-backed mock.
- **The three reactors** (`BookSearch`, `BookDetail`, `BookmarkList`, all built on `Reactor.Fold`). An action
  becomes the list of mutations its stream emits (`Mutate`), and `reduce` is folded over that list (`Next`).
  - The search and detail reactors read their current state while choosing what to emit. They are classes
    with a `state` field, and one method per action applies the emitted mutations in order.
  - The bookmark-list reactor never reads its state and stays a pair of functions.
  - What each use case delivers is an explicit input, `Success(value)` or `Failure`.
- **`Coordinator`'s child bookkeeping** (`Coordinators`): `addChild` appends and `removeChild` removes every
  occurrence by identity.

Conventions:

- Dates are whole seconds (`Timestamp = nat`).
- The current time `now` is a parameter. Every repository method that stamps a row requires `now` to be later
  than every stored stamp, as a clock that only moves forward gives. Under that clock, sorting on the stamp
  descending is the reverse of insertion order, and `Table.NewestFirstIsSortedFetch` proves it.
- `URL(string:)` is a parameter `parseUrl`, and ISO-8601 parsing is a parameter `parseDate`.
- `save()` is one atomic assignment to `rows`.

Behaviour of the code worth noting:

- Only the `search` and `loadMoreSearchResults` streams catch errors. A failed `toggleBookmark` therefore
  leaves `isLoading` on (`BookDetail.ToggleFails`), as does a failed `loadBookmarks`
  (`BookmarkList.LoadFails`). A failed `checkBookmarkStatus` or `loadRecentBooks` changes nothing.
- A failed search still records the new query, because `setCurrentQuery` is emitted before the request
  (`BookSearch.SearchFails`).
- The bookmark table has no size cap; only the recents table is trimmed.
- Prices are `Double` in the source and whole numbers here. The catalogue sends integers, and the only tests
  made on them are `== 0` and `> 0`.

## Model

| member | source | states |
|---|---|---|
| Books.NewBook | Bookshelf/Domain/Entities/Book.swift:21-41 | building a book without `status` gives "정상판매", and every other field is the argument given |
| Books.EqualIffFieldsEqual | Bookshelf/Domain/Entities/Book.swift:10-19 | two books are equal exactly when all nine fields are equal |
| Books.MockData | Bookshelf/Domain/Entities/Book.swift:46-207 | no contract; the sixteen fixture books field by field, see `MockDataTitlesDistinct`, `MockDataPricesAndAuthors` and `MockDataWithoutSalePrice` |
| Books.MockDataTitlesDistinct | Bookshelf/Domain/Entities/Book.swift:46-207 | the fixture has sixteen books and no two share a title |
| Books.MockDataPricesAndAuthors | Bookshelf/Domain/Entities/Book.swift:46-207 | every fixture sale price is at most its list price, and every fixture book has an author |
| Books.MockDataWithoutSalePrice | Bookshelf/Domain/Entities/Book.swift:46-207 | exactly three fixture books have no sale price: "코스모스", "1984" and "정의란 무엇인가", in that order |
| SearchRequest.SortRawValues | Bookshelf/Data/DTO/Request/BookSearchRequestDTO.swift:11-14 | the sort raw values are "accuracy" and "latest", and each reads back as its case |
| SearchRequest.TargetRawValues | Bookshelf/Data/DTO/Request/BookSearchRequestDTO.swift:16-21 | the target raw values are "title", "isbn", "publisher" and "person", and each reads back as its case |
| SearchRequest.RawValuesInverse | Bookshelf/Data/DTO/Request/BookSearchRequestDTO.swift:11-21 | a raw string that names a case is that case's raw value |
| SearchRequest.MakeRequest | Bookshelf/Data/DTO/Request/BookSearchRequestDTO.swift:22-26 | query and page are carried as given; sort is `accuracy`, size 20, target `title` |
| SearchRequest.FixedParametersIgnoreInputs | Bookshelf/Data/DTO/Request/BookSearchRequestDTO.swift:24-26 | the fixed parameters are the same whatever query and page the request is built from |
| SearchRequest.SortRawValue | Bookshelf/Data/DTO/Request/BookSearchRequestDTO.swift:11-14 | no contract; see `SortRawValues` and `RawValuesInverse` |
| SearchRequest.SortFromRawValue | Bookshelf/Data/DTO/Request/BookSearchRequestDTO.swift:11-14 | no contract; see `SortRawValues` and `RawValuesInverse` |
| SearchRequest.TargetRawValue | Bookshelf/Data/DTO/Request/BookSearchRequestDTO.swift:16-21 | no contract; see `TargetRawValues` and `RawValuesInverse` |
| SearchRequest.TargetFromRawValue | Bookshelf/Data/DTO/Request/BookSearchRequestDTO.swift:16-21 | no contract; see `TargetRawValues` and `RawValuesInverse` |
| SearchResponse.ToDomain | Bookshelf/Data/DTO/Response/BookSearchResponseDTO.swift:37-53 | title, authors, contents, publisher and price are copied; the sale price is present iff the document's is positive, and then equals it; status is the default; the date falls back to now; the thumbnail is the parsed URL |
| SearchResponse.IgnoredFields | Bookshelf/Data/DTO/Response/BookSearchResponseDTO.swift:21-53 | the document's url, isbn, translators and status do not affect the book |
| SearchResponse.NonPositiveSalePriceIsAbsent | Bookshelf/Data/DTO/Response/BookSearchResponseDTO.swift:50 | a sale price of 0 or below maps to no sale price |
| AuthorList.Join | Bookshelf/Data/CoreData/BookmarkEntity+Extensions.swift:16 | zero or one name is stored as itself, and two or more contain the separator |
| AuthorList.Fields | Bookshelf/Data/CoreData/BookmarkEntity+Extensions.swift:32 | splitting on "," gives at least one piece and no piece contains a comma |
| AuthorList.NonEmpty | Bookshelf/Data/CoreData/BookmarkEntity+Extensions.swift:32 | the pieces kept are non-empty pieces of the split |
| AuthorList.Split | Bookshelf/Data/CoreData/BookmarkEntity+Extensions.swift:32 | every name read back is non-empty and comma-free |
| AuthorList.SplitJoin | Bookshelf/Data/CoreData/BookmarkEntity+Extensions.swift:16-32 | non-empty, comma-free names read back as stored |
| AuthorList.AuthorsRoundTrip | Bookshelf/Data/CoreData/BookmarkEntity+Extensions.swift:16-32 | the authors round-trip exactly when no name is empty or contains a comma |
| AuthorList.CommaInNameIsCut | Bookshelf/Data/CoreData/BookmarkEntity+Extensions.swift:16-32 | a name with a comma comes back as two names |
| StoredBook.Encode | Bookshelf/Data/CoreData/BookmarkEntity+Extensions.swift:13-26 | each column holds its field; authors are joined; the stored sale price is 0 iff it was absent or 0 |
| StoredBook.Decode | Bookshelf/Data/CoreData/BookmarkEntity+Extensions.swift:29-41 | nil strings read as "", a nil date as now, a stored 0 as no sale price, a nil URL as no thumbnail and a present one as its parse |
| StoredBook.PlainFieldsRoundTrip | Bookshelf/Data/CoreData/BookmarkEntity+Extensions.swift:13-41 | title, contents, publisher, date, price and status always come back unchanged |
| StoredBook.SalePriceRoundTrip | Bookshelf/Data/CoreData/BookmarkEntity+Extensions.swift:21-37 | the sale price comes back unchanged iff it is not a present 0, which comes back absent |
| StoredBook.RoundTrip | Bookshelf/Data/CoreData/BookmarkEntity+Extensions.swift:13-41 | a book reads back equal iff its authors are storable, its sale price is not 0 and its URL re-parses to itself |
| BookmarkEntity.RoundTrip | Bookshelf/Data/CoreData/BookmarkEntity+Extensions.swift:13-41 | the same iff, through a bookmark row |
| BookmarkEntity.From | Bookshelf/Data/CoreData/BookmarkEntity+Extensions.swift:13-26 | no contract; see `StoredBook.Encode`, `RoundTrip` and `NewEntityIsStampedNow` |
| BookmarkEntity.ToDomain | Bookshelf/Data/CoreData/BookmarkEntity+Extensions.swift:29-41 | no contract; see `StoredBook.Decode` and `RoundTrip` |
| BookmarkEntity.NewEntityIsStampedNow | Bookshelf/Data/CoreData/BookmarkEntity+Extensions.swift:13-26 | a new bookmark stamped now keeps the table's stamps increasing and is its newest row; its plain fields read back unchanged (a corollary of `StoredBook.PlainFieldsRoundTrip`) |
| RecentBookEntity.RoundTrip | Bookshelf/Data/CoreData/RecentBookEntity+Extensions.swift:13-41 | the same iff, through a recent row |
| RecentBookEntity.From | Bookshelf/Data/CoreData/RecentBookEntity+Extensions.swift:13-26 | no contract; see `StoredBook.Encode`, `RoundTrip` and `NewEntityIsStampedNow` |
| RecentBookEntity.ToBook | Bookshelf/Data/CoreData/RecentBookEntity+Extensions.swift:29-41 | no contract; see `StoredBook.Decode` and `RoundTrip` |
| RecentBookEntity.NewEntityIsStampedNow | Bookshelf/Data/CoreData/RecentBookEntity+Extensions.swift:13-26 | a new recent row stamped now keeps the table's stamps increasing and is its newest row; its plain fields read back unchanged (a corollary of `StoredBook.PlainFieldsRoundTrip`) |
| Table.CountTitle | Bookshelf/Data/Repositories/CoreDataBookmarkRepository.swift:98-103 | the count of `title == %@` is at most the row count, and 0 iff no row has the title |
| Table.WithoutTitle | Bookshelf/Data/Repositories/CoreDataBookmarkRepository.swift:49-55 | deleting the title removes exactly its rows: no row left has it, every other row stays; order and copies are kept by `WithoutTitleAppend` |
| Table.WithoutTitleAppend | Bookshelf/Data/Repositories/CoreDataBookmarkRepository.swift:53-54 | deleting a title from a concatenation deletes it from each part, so survivors keep their order and their copies |
| Table.DeleteTitle | Bookshelf/Data/Repositories/CoreDataBookmarkRepository.swift:53-54 | the delete loop leaves exactly `WithoutTitle` |
| Table.CountTitleAppend | Bookshelf/Data/Repositories/CoreDataBookmarkRepository.swift:26-31 | inserting a row adds one to its own title's count and nothing to any other |
| Table.CountWithoutTitle | Bookshelf/Data/Repositories/CoreDataBookmarkRepository.swift:49-55 | after deleting a title its count is 0 and every other title keeps its count |
| Table.WithoutAbsentTitle | Bookshelf/Data/Repositories/CoreDataBookmarkRepository.swift:53-55 | deleting a title no row has leaves the table as it was |
| Table.NewestFirst | Bookshelf/Data/Repositories/CoreDataBookmarkRepository.swift:74-78 | the fetch lists row k from the end at position k |
| Table.NewestFirstIsSorted | Bookshelf/Data/Repositories/CoreDataBookmarkRepository.swift:74-78 | under increasing stamps that order is stamp-descending |
| Table.NewestFirstIsPermutation | Bookshelf/Data/Repositories/CoreDataBookmarkRepository.swift:74-78 | the fetch returns every row, each as often as stored |
| Table.NewestFirstIsSortedFetch | Bookshelf/Data/Repositories/CoreDataBookmarkRepository.swift:74-78 | reverse insertion order is the permutation sorted on the stamp, newest first |
| Table.WithoutTitleKeepsStamps | Bookshelf/Data/Repositories/CoreDataRecentBookRepository.swift:33-34 | deleting rows keeps stamps increasing |
| Table.WithoutTitleKeepsTitlesDistinct | Bookshelf/Data/Repositories/CoreDataRecentBookRepository.swift:33-34 | deleting rows keeps titles distinct |
| Table.WithoutTitleKeepsLater | Bookshelf/Data/Repositories/CoreDataRecentBookRepository.swift:33-34 | a time later than every row stays later than every row after a delete |
| BookmarkRepository.Listed | Bookshelf/Data/Repositories/CoreDataBookmarkRepository.swift:74-79 | no contract; `toDomain()` on each row, newest first, see `ListedIsSortedFetch` and `FetchBookmarks` |
| BookmarkRepository.CoreDataBookmarkRepository.constructor | Bookshelf/Data/Repositories/CoreDataBookmarkRepository.swift:15-17 | a repository opens the committed table as it stands (empty on a fresh install) |
| BookmarkRepository.CoreDataBookmarkRepository.AddBookmark | Bookshelf/Data/Repositories/CoreDataBookmarkRepository.swift:19-39 | one row stamped now is appended, the old rows stay, and stamps stay increasing |
| BookmarkRepository.CoreDataBookmarkRepository.RemoveBookmark | Bookshelf/Data/Repositories/CoreDataBookmarkRepository.swift:41-64 | the table becomes `WithoutTitle` of the old table, with stamps still increasing |
| BookmarkRepository.CoreDataBookmarkRepository.FetchBookmarks | Bookshelf/Data/Repositories/CoreDataBookmarkRepository.swift:66-88 | one book per row, newest first (`Listed`) |
| BookmarkRepository.CoreDataBookmarkRepository.IsBookmarked | Bookshelf/Data/Repositories/CoreDataBookmarkRepository.swift:90-111 | true iff some row has the book's title |
| BookmarkRepository.ListedIsSortedFetch | Bookshelf/Data/Repositories/CoreDataBookmarkRepository.swift:74-80 | the listing maps the table's sorted newest-first permutation |
| BookmarkRepository.AddThenBookmarked | Bookshelf/Data/Repositories/CoreDataBookmarkRepository.swift:26-31 | adding grows the table by one, keeps the old rows as a prefix, and raises the title's count by one |
| BookmarkRepository.AddedIsListedFirst | Bookshelf/Data/Repositories/CoreDataBookmarkRepository.swift:74-80 | the book just added is listed first |
| BookmarkRepository.RemoveThenNotBookmarked | Bookshelf/Data/Repositories/CoreDataBookmarkRepository.swift:49-55 | after removing, the title's count is 0 and other titles keep theirs |
| BookmarkRepository.RemoveAbsentIsNoOp | Bookshelf/Data/Repositories/CoreDataBookmarkRepository.swift:53-55 | removing a book that is not bookmarked changes nothing |
| RecentBookRepository.Trim | Bookshelf/Data/Repositories/CoreDataRecentBookRepository.swift:40-47 | at most ten rows remain, a suffix of the table, and a table within the cap is untouched |
| RecentBookRepository.Saved | Bookshelf/Data/Repositories/CoreDataRecentBookRepository.swift:27-49 | no contract; see `SavedHasOneRowForTitle`, `SavedEvictsOnlyOldest`, `SavedSize`, `SavedIsFetchedFirst` and `SavedKeepsInvariant` |
| RecentBookRepository.ToBooks | Bookshelf/Data/Repositories/CoreDataRecentBookRepository.swift:74 | no contract; `toBook()` on each row, in order, see `Fetched` |
| RecentBookRepository.Fetched | Bookshelf/Data/Repositories/CoreDataRecentBookRepository.swift:68-75 | at most ten books, the k-th from the k-th newest row |
| RecentBookRepository.CoreDataRecentBookRepository.constructor | Bookshelf/Data/Repositories/CoreDataRecentBookRepository.swift:16-18 | a repository opens the committed table as it stands (empty on a fresh install), which every save keeps ordered, distinct and within ten rows |
| RecentBookRepository.CoreDataRecentBookRepository.SaveRecentBook | Bookshelf/Data/Repositories/CoreDataRecentBookRepository.swift:20-58 | the table becomes `Saved`, with increasing stamps, distinct titles and at most ten rows |
| RecentBookRepository.CoreDataRecentBookRepository.FetchRecentBooks | Bookshelf/Data/Repositories/CoreDataRecentBookRepository.swift:60-83 | returns `Fetched`: every row (at most ten), newest first |
| RecentBookRepository.FetchedIsNewestFirst | Bookshelf/Data/Repositories/CoreDataRecentBookRepository.swift:68-75 | a table within the cap is fetched whole, newest first |
| RecentBookRepository.TrimKeepsNewest | Bookshelf/Data/Repositories/CoreDataRecentBookRepository.swift:40-47 | deleting `dropFirst(10)` of the newest-first fetch keeps its first ten rows |
| RecentBookRepository.SavedHasOneRowForTitle | Bookshelf/Data/Repositories/CoreDataRecentBookRepository.swift:28-37 | after a save exactly one row has the saved title |
| RecentBookRepository.SavedEvictsOnlyOldest | Bookshelf/Data/Repositories/CoreDataRecentBookRepository.swift:33-47 | a save keeps the newest rows of the other titles (up to nine) and then the saved row |
| RecentBookRepository.SavedSize | Bookshelf/Data/Repositories/CoreDataRecentBookRepository.swift:33-47 | a save leaves at most ten rows, and re-saving a stored title does not add a row |
| RecentBookRepository.SavedIsFetchedFirst | Bookshelf/Data/Repositories/CoreDataRecentBookRepository.swift:37-75 | the saved book is the newest row and is fetched first |
| RecentBookRepository.SaveIntoFullTableEvictsOldest | Bookshelf/Data/Repositories/CoreDataRecentBookRepository.swift:40-47 | a new title saved into a full table evicts exactly the oldest row |
| RecentBookRepository.SavedKeepsInvariant | Bookshelf/Data/Repositories/CoreDataRecentBookRepository.swift:20-58 | a save keeps stamps increasing, titles distinct and the table within the cap |
| RecentBookRepository.MockFetchRecentBooks | Bookshelf/Data/Repositories/CoreDataRecentBookRepository.swift:87-89 | the mock fetch returns all sixteen fixture books in order, titles distinct |
| RecentBookRepository.MockSaveRecentBook | Bookshelf/Data/Repositories/CoreDataRecentBookRepository.swift:91-93 | the mock save completes successfully |
| BookRepository.SearchBooks | Bookshelf/Data/Repositories/BookRepository.swift:18-22 | fails iff the data source fails for the request built from the query and page, and otherwise maps that response |
| BookRepository.SearchBooksAsksOnlyForQueryAndPage | Bookshelf/Data/Repositories/BookRepository.swift:18-21 | the only request that matters is (query, page, accuracy, 20, title) |
| BookRepository.FetchRecentBooks | Bookshelf/Data/Repositories/BookRepository.swift:24-26 | always the empty list |
| BookRepository.SaveRecentBook | Bookshelf/Data/Repositories/BookRepository.swift:28-30 | always completes successfully |
| BookRepository.MockSearchBooks | Bookshelf/Data/Repositories/BookRepository.swift:43-44 | all sixteen fixture books in order, titles distinct, never the last page |
| BookRepository.MockFetchRecentBooks | Bookshelf/Data/Repositories/BookRepository.swift:34-37 | the first five fixture books in order, each also a search result |
| BookRepository.MockSearchIgnoresInputs | Bookshelf/Data/Repositories/BookRepository.swift:43-44 | the mock search result does not depend on query or page |
| BookSearch.InitialState | Bookshelf/Presentation/BookSearch/BookSearchViewReactor.swift:31-42 | empty lists, page 1, not loading, more pages, empty query |
| BookSearch.Reduce | Bookshelf/Presentation/BookSearch/BookSearchViewReactor.swift:114-135 | no contract; see `ReduceChangesOnlyNamedField` |
| BookSearch.Mutate | Bookshelf/Presentation/BookSearch/BookSearchViewReactor.swift:55-111 | no contract; see `LoadRecentBooksReplacesOnlyRecent`, `SearchEmptyResets`, `SearchSucceeds`, `SearchFails`, `LoadMoreGuard`, `LoadMoreSucceeds` and `LoadMoreFails` |
| BookSearch.Next | Bookshelf/Presentation/BookSearch/BookSearchViewReactor.swift:55-135 | no contract; an action's mutations reduced in order, see the same lemmas and `ActionsKeepPagePositive` |
| BookSearch.BookSearchViewReactor.constructor | Bookshelf/Presentation/BookSearch/BookSearchViewReactor.swift:42-52 | the reactor starts in the initial state |
| BookSearch.BookSearchViewReactor.Apply | Bookshelf/Presentation/BookSearch/BookSearchViewReactor.swift:114-135 | applying mutations one by one gives `reduce` folded over them |
| BookSearch.BookSearchViewReactor.LoadRecentBooks | Bookshelf/Presentation/BookSearch/BookSearchViewReactor.swift:57-59 | the state becomes `Next` of the old state for the action |
| BookSearch.BookSearchViewReactor.Search | Bookshelf/Presentation/BookSearch/BookSearchViewReactor.swift:61-88 | the state becomes `Next` of the old state for the action |
| BookSearch.BookSearchViewReactor.LoadMoreSearchResults | Bookshelf/Presentation/BookSearch/BookSearchViewReactor.swift:89-109 | the state becomes `Next` of the old state for the action |
| BookSearch.ReduceChangesOnlyNamedField | Bookshelf/Presentation/BookSearch/BookSearchViewReactor.swift:114-135 | each mutation changes only the field it names; appending gives old results followed by the new ones |
| BookSearch.LoadRecentBooksReplacesOnlyRecent | Bookshelf/Presentation/BookSearch/BookSearchViewReactor.swift:57-59 | success replaces only `recentBooks`; failure changes nothing |
| BookSearch.SearchEmptyResets | Bookshelf/Presentation/BookSearch/BookSearchViewReactor.swift:62-69 | an empty query resets results, page, `hasMore` and query without using the search, leaving loading and recents alone |
| BookSearch.SearchSucceeds | Bookshelf/Presentation/BookSearch/BookSearchViewReactor.swift:70-82 | success shows page 1 of the query, `hasMore = !isEnd`, not loading |
| BookSearch.SearchFails | Bookshelf/Presentation/BookSearch/BookSearchViewReactor.swift:79-88 | failure keeps results, page and `hasMore`, records the query, and stops loading |
| BookSearch.LoadMoreGuard | Bookshelf/Presentation/BookSearch/BookSearchViewReactor.swift:90-95 | nothing is emitted iff loading, out of pages, or without a query, and then the state is unchanged |
| BookSearch.LoadMoreSucceeds | Bookshelf/Presentation/BookSearch/BookSearchViewReactor.swift:96-106 | success asks for the next page of the current query, appends it, advances the page by one and stops loading |
| BookSearch.LoadMoreFails | Bookshelf/Presentation/BookSearch/BookSearchViewReactor.swift:106-109 | failure emits loading on then off, which leaves the state as it was |
| BookSearch.ActionsKeepPagePositive | Bookshelf/Presentation/BookSearch/BookSearchViewReactor.swift:55-111 | every action outcome keeps `currentPage >= 1` |
| BookSearch.LoadMoreTwice | Bookshelf/Presentation/BookSearch/BookSearchViewReactor.swift:96-106 | two successful loads advance two pages and append both pages in order |
| BookSearch.SapiensScenario | Bookshelf/Presentation/BookSearch/BookSearchViewReactor.swift:70-82 | searching "사피엔스" against a one-book page that is not the last gives one result, `hasMore`, page 1 |
| Reactor.Fold | Bookshelf/Presentation/BookSearch/BookSearchViewReactor.swift:114-135 | no contract; `reduce` applied to each emitted mutation in turn, proved equal to each reactor's `Apply` loop |
| BookDetail.InitialState | Bookshelf/Presentation/BookDetail/BookDetailViewReactor.swift:26-46 | the given book, not bookmarked, not loading |
| BookDetail.Reduce | Bookshelf/Presentation/BookDetail/BookDetailViewReactor.swift:85-96 | no contract; see `ReduceKeepsBook` and `ReduceChangesOnlyNamedFlag` |
| BookDetail.Mutate | Bookshelf/Presentation/BookDetail/BookDetailViewReactor.swift:53-82 | no contract; see `CheckSetsFlag`, `ToggleSucceeds`, `ToggleFails` and `ToggleBranchesOnFlag` |
| BookDetail.Next | Bookshelf/Presentation/BookDetail/BookDetailViewReactor.swift:53-96 | no contract; an action's mutations reduced in order, see the same lemmas and `ToggleTwice` |
| BookDetail.BookDetailViewReactor.constructor | Bookshelf/Presentation/BookDetail/BookDetailViewReactor.swift:39-50 | the reactor holds the book and starts in its initial state |
| BookDetail.BookDetailViewReactor.Apply | Bookshelf/Presentation/BookDetail/BookDetailViewReactor.swift:85-96 | applying mutations one by one gives `reduce` folded over them |
| BookDetail.BookDetailViewReactor.CheckBookmarkStatus | Bookshelf/Presentation/BookDetail/BookDetailViewReactor.swift:55-57 | the state becomes `Next` of the old state for the action, and the book is unchanged |
| BookDetail.BookDetailViewReactor.ToggleBookmark | Bookshelf/Presentation/BookDetail/BookDetailViewReactor.swift:59-80 | the state becomes `Next` of the old state for the action, and the book is unchanged |
| BookDetail.ReduceKeepsBook | Bookshelf/Presentation/BookDetail/BookDetailViewReactor.swift:85-96 | no sequence of mutations changes the book |
| BookDetail.ReduceChangesOnlyNamedFlag | Bookshelf/Presentation/BookDetail/BookDetailViewReactor.swift:85-96 | each mutation sets only the flag it names |
| BookDetail.CheckSetsFlag | Bookshelf/Presentation/BookDetail/BookDetailViewReactor.swift:55-57 | a check sets `isBookmarked` to the answer and leaves loading alone; a failed check changes nothing |
| BookDetail.ToggleSucceeds | Bookshelf/Presentation/BookDetail/BookDetailViewReactor.swift:59-80 | a successful toggle emits loading on, the flipped flag, loading off, and ends flipped and idle |
| BookDetail.ToggleFails | Bookshelf/Presentation/BookDetail/BookDetailViewReactor.swift:62-79 | a failed toggle keeps the flag and leaves loading on |
| BookDetail.ToggleBranchesOnFlag | Bookshelf/Presentation/BookDetail/BookDetailViewReactor.swift:60-62 | what a toggle emits depends on the state only through `isBookmarked` |
| BookDetail.ToggleTwice | Bookshelf/Presentation/BookDetail/BookDetailViewReactor.swift:59-80 | two successful toggles restore the flag and end idle |
| BookDetail.ToggleTwiceAgainstStore | Bookshelf/Presentation/BookDetail/BookDetailViewReactor.swift:59-80 | toggling an unbookmarked book twice against the table ends unbookmarked, with no row for it and the table as before |
| BookmarkList.InitialState | Bookshelf/Presentation/BookmarkList/BookmarkListViewReactor.swift:26-33 | no bookmarks, not loading, nothing selected |
| BookmarkList.Reduce | Bookshelf/Presentation/BookmarkList/BookmarkListViewReactor.swift:59-72 | no contract; see `ReduceChangesOnlyNamedField` |
| BookmarkList.Mutate | Bookshelf/Presentation/BookmarkList/BookmarkListViewReactor.swift:41-56 | no contract; see `LoadSucceeds`, `LoadFails` and `SelectBookPresents` |
| BookmarkList.Next | Bookshelf/Presentation/BookmarkList/BookmarkListViewReactor.swift:41-72 | no contract; an action's mutations reduced in order, see the same lemmas and `LoadAfterSelectKeepsSelection` |
| BookmarkList.ReduceChangesOnlyNamedField | Bookshelf/Presentation/BookmarkList/BookmarkListViewReactor.swift:59-72 | each mutation sets only the field it names |
| BookmarkList.LoadSucceeds | Bookshelf/Presentation/BookmarkList/BookmarkListViewReactor.swift:43-51 | a successful load shows exactly the fetched books, ends idle and keeps the selection |
| BookmarkList.LoadFails | Bookshelf/Presentation/BookmarkList/BookmarkListViewReactor.swift:43-51 | a failed load keeps the list and selection and leaves loading on |
| BookmarkList.SelectBookPresents | Bookshelf/Presentation/BookmarkList/BookmarkListViewReactor.swift:53-54 | selecting a book records it and changes nothing else |
| BookmarkList.LoadAfterSelectKeepsSelection | Bookshelf/Presentation/BookmarkList/BookmarkListViewReactor.swift:43-70 | a load after a selection keeps that selection |
| Coordinators.RemovingAll | Bookshelf/Presentation/Coordinators/Coordinator.swift:26 | the removed coordinator is absent, every other child stays, and nothing new appears |
| Coordinators.Coordinator.AddChild | Bookshelf/Presentation/Coordinators/Coordinator.swift:21-23 | the children become the old children followed by the new one |
| Coordinators.Coordinator.RemoveChild | Bookshelf/Presentation/Coordinators/Coordinator.swift:25-27 | the children become `RemovingAll` of the old children |
| Coordinators.RemovingAllAppend | Bookshelf/Presentation/Coordinators/Coordinator.swift:26 | removal distributes over concatenation, so survivors keep their order |
| Coordinators.RemovingAllAbsent | Bookshelf/Presentation/Coordinators/Coordinator.swift:26 | removing a coordinator that is not a child changes nothing |
| Coordinators.AddTwiceRemoveOnce | Bookshelf/Presentation/Coordinators/Coordinator.swift:21-27 | adding a child twice and removing it once leaves none of it |

## Left out

- UIKit views, cells, view controllers, layout and `Reusable`: presentation with no state logic.
- The discount percentage in the detail price view: it is floating-point arithmetic.
- Debounce and `distinctUntilChanged` on the search bar: these are timing and stream behaviour.
- ReactorKit's scheduling of overlapping actions, and its handling of an error that ends an uncaught stream.
  Each action runs to completion against one use-case outcome.
- Strings are sequences of Unicode code points here. Swift's `String` is a sequence of grapheme clusters
  compared up to canonical equivalence, and `split(separator: ",")` splits on whole clusters. A name after
  the first that starts with a combining mark fuses with the comma before it into one cluster, and then no
  split happens there.
- AuthorList.SplitJoin: holds in Swift only when no name after the first starts with a combining mark;
  `["a", "\u{301}b"]` is joined to a string that Swift splits back as one name.
- AuthorList.AuthorsRoundTrip: the iff holds in Swift only when no name after the first starts with a
  combining mark; in the other direction, Swift round-trips `["x,\u{301}y"]`, which `Storable` rejects.
- StoredBook.RoundTrip: its authors condition is the code-point one of `AuthorList.AuthorsRoundTrip`, with
  the same exception for names that start with a combining mark.
- BookmarkEntity.RoundTrip: the same exception as `StoredBook.RoundTrip`.
- RecentBookEntity.RoundTrip: the same exception as `StoredBook.RoundTrip`.
- Books.EqualIffFieldsEqual: compares strings as code-point sequences, so two titles that Swift finds
  canonically equivalent but that are spelled with different code points count as different here.
- Sharing of the Core Data store. Every `CoreDataBookmarkRepository()` and `CoreDataRecentBookRepository()`
  works on the one process-wide `CoreDataStack.shared`, which persists across launches, and the app creates
  several of each. Here each repository object owns its `rows`, opened from the committed table by its
  constructor. A change made through one object is not seen by another, and nothing carries a table from
  one launch to the next.
- The network data source, `APIConfig` and `CoreDataStack`. The data source is the `dataSource` parameter of
  `BookRepository.SearchBooks`. The repositories' branch for a deallocated `self` is also left out.
- Storage errors: `save()` and `fetch` are taken to succeed, so the repository methods never fail.
- `ISO8601DateFormatter` and `URL(string:)`: they are the parameters `parseDate` and `parseUrl`.
  `Date()` is the parameter `now`.
- The response-level mapping from a search response to a `BookSearchResult`, including `meta.isEnd`. Its
  definition is not part of this model and is the `toResult` parameter of `BookRepository.SearchBooks`.
- The random helpers of `MockBookRepository`: they use randomness and floating point, and nothing calls them.
- The use cases: each delegates to one repository method unchanged, so a reactor takes the outcome directly.
- Coordinators' `navigationController`, `start` and screen wiring: navigation only.
- Prices as `Double`: they are whole numbers here.
- `BookSearch.ActionsKeepPagePositive`: does not model the 64-bit limit on `currentPage`, because a page
  count never comes near it.
- `RecentBookRepository.MockSaveRecentBook`: states only success; it has no state to leave unchanged.
- `BookRepository.SaveRecentBook`: states only success; it has no state to leave unchanged.
