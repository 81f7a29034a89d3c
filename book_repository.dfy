/** `BookRepository` (network-backed) and `MockBookRepository` (fixture-backed). */
module BookRepository {
  import opened Wrappers
  import opened Books
  import opened SearchRequest
  import SearchResponse

  /**
   * `BookRepository.searchBooks(query:page:)`: builds the request from `query` and `page`, asks the
   * data source, and maps a response to a result with `toResult` (the response-level `toDomain()`).
   * A data source error is passed on unchanged.
   */
  function SearchBooks(query: string, page: int,
                       dataSource: BookSearchRequestDTO -> Outcome<SearchResponse.BookSearchResponseDTO>,
                       toResult: SearchResponse.BookSearchResponseDTO -> BookSearchResult): (r: Outcome<BookSearchResult>)
    ensures r.Failure? <==> dataSource(MakeRequest(query, page)).Failure?
    ensures r.Success? ==> r.value == toResult(dataSource(MakeRequest(query, page)).value)
  {
    match dataSource(MakeRequest(query, page))
    case Success(response) => Success(toResult(response))
    case Failure => Failure
  }

  /**
   * The one request sent carries the query and page given, with sort `accuracy`, size 20 and target
   * `title`: two data sources that answer that request alike give the same result.
   */
  lemma SearchBooksAsksOnlyForQueryAndPage(query: string, page: int,
                                           ds1: BookSearchRequestDTO -> Outcome<SearchResponse.BookSearchResponseDTO>,
                                           ds2: BookSearchRequestDTO -> Outcome<SearchResponse.BookSearchResponseDTO>,
                                           toResult: SearchResponse.BookSearchResponseDTO -> BookSearchResult)
    requires ds1(BookSearchRequestDTO(query, page, Some(Accuracy), 20, Title))
          == ds2(BookSearchRequestDTO(query, page, Some(Accuracy), 20, Title))
    ensures SearchBooks(query, page, ds1, toResult) == SearchBooks(query, page, ds2, toResult)
  {
    assert MakeRequest(query, page) == BookSearchRequestDTO(query, page, Some(Accuracy), 20, Title);
  }

  /** `BookRepository.fetchRecentBooks`: always the empty list. */
  function FetchRecentBooks(): (books: seq<Book>)
    ensures books == []
  {
    []
  }

  /** `saveRecentBook` on either book repository: completes with `()` and changes nothing. */
  function SaveRecentBook(book: Book): (r: Outcome<()>)
    ensures r.Success?
  {
    Success(())
  }

  /** `MockBookRepository.searchBooks`: the whole fixture on every page of every query, never the last page. */
  function MockSearchBooks(query: string, page: int): (r: BookSearchResult)
    ensures !r.isEnd && |r.books| == 16 && DistinctTitles(r.books)
    ensures forall i :: 0 <= i < 16 ==> r.books[i] == MockData()[i]
  {
    MockDataTitlesDistinct();
    BookSearchResult(MockData(), false)
  }

  /** `MockBookRepository.fetchRecentBooks`: the first five fixture books, in order, all of which search also returns. */
  function MockFetchRecentBooks(): (books: seq<Book>)
    ensures |books| == 5
    ensures forall i :: 0 <= i < 5 ==> books[i] == MockData()[i]
    ensures forall q, p, i :: 0 <= i < 5 ==> books[i] == MockSearchBooks(q, p).books[i]
  {
    MockDataTitlesDistinct();
    MockData()[..5]
  }

  /** The mock search does not look at its query or page. */
  lemma MockSearchIgnoresInputs(q1: string, p1: int, q2: string, p2: int)
    ensures MockSearchBooks(q1, p1) == MockSearchBooks(q2, p2)
  {
  }
}
