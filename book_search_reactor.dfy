/**
 * `BookSearchViewReactor`: recent books, first-page search and guarded "load more" pagination.
 * The asynchronous use cases are an explicit input (`UseCases`): what `FetchRecentBooksUseCase`
 * delivered, and what `SearchBookUseCase` delivers for each (query, page) request.
 */
module BookSearch {
  import opened Wrappers
  import opened Books
  import Reactor

  /** What the two use cases deliver while an action runs: the recent books, and a search page per request. */
  datatype UseCases = UseCases(
    fetchRecentBooks: Outcome<seq<Book>>,
    searchBook: (string, int) -> Outcome<BookSearchResult>)

  datatype Action = LoadRecentBooks | LoadMoreSearchResults | Search(query: string)

  datatype Mutation =
    | SetRecentBooks(books: seq<Book>)
    | SetSearchResults(books: seq<Book>)
    | AppendSearchResults(books: seq<Book>)
    | SetCurrentPage(page: int)
    | SetLoading(isLoading: bool)
    | SetHasMore(hasMore: bool)
    | SetCurrentQuery(query: string)

  datatype State = State(
    recentBooks: seq<Book>,
    searchResults: seq<Book>,
    currentPage: int,
    isLoading: bool,
    hasMore: bool,
    currentQuery: string)

  /** The state invariant: pages are counted from 1. */
  predicate Valid(s: State) {
    s.currentPage >= 1
  }

  /** `State()`: no books, page 1, not loading, more to load, empty query. */
  function InitialState(): (s: State)
    ensures Valid(s)
    ensures s.recentBooks == [] && s.searchResults == []
    ensures s.currentPage == 1 && !s.isLoading && s.hasMore && s.currentQuery == ""
  {
    State([], [], 1, false, true, "")
  }

  /** `reduce(state:mutation:)`. */
  function Reduce(s: State, m: Mutation): State {
    match m
    case SetRecentBooks(books) => s.(recentBooks := books)
    case SetSearchResults(books) => s.(searchResults := books)
    case AppendSearchResults(books) => s.(searchResults := s.searchResults + books)
    case SetCurrentPage(page) => s.(currentPage := page)
    case SetHasMore(hasMore) => s.(hasMore := hasMore)
    case SetLoading(isLoading) => s.(isLoading := isLoading)
    case SetCurrentQuery(query) => s.(currentQuery := query)
  }

  function ReduceAll(s: State, ms: seq<Mutation>): State {
    Reactor.Fold(Reduce, s, ms)
  }

  /** The guard of `loadMoreSearchResults`: nothing in flight, more pages, and a query to continue. */
  predicate CanLoadMore(s: State) {
    !s.isLoading && s.hasMore && s.currentQuery != ""
  }

  /** `mutate(action:)`, given what the use cases deliver; `current` is `currentState`. */
  function Mutate(current: State, action: Action, env: UseCases): seq<Mutation>
  {
    match action
    case LoadRecentBooks =>
      if env.fetchRecentBooks.Success? then [SetRecentBooks(env.fetchRecentBooks.value)] else []
    case Search(query) =>
      if query == "" then
        [SetSearchResults([]), SetCurrentPage(1), SetHasMore(true), SetCurrentQuery(query)]
      else
        (match env.searchBook(query, 1)
         case Success(result) =>
           [SetLoading(true), SetCurrentQuery(query),
            SetSearchResults(result.books), SetCurrentPage(1), SetHasMore(!result.isEnd), SetLoading(false)]
         case Failure =>
           [SetLoading(true), SetCurrentQuery(query), SetLoading(false)])
    case LoadMoreSearchResults =>
      if !CanLoadMore(current) then []
      else
        var nextPage := current.currentPage + 1;
        match env.searchBook(current.currentQuery, nextPage)
        case Success(result) =>
          [SetLoading(true),
           AppendSearchResults(result.books), SetCurrentPage(nextPage), SetHasMore(!result.isEnd), SetLoading(false)]
        case Failure =>
          [SetLoading(true), SetLoading(false)]
  }

  /** The state once an action has run to completion. */
  function Next(s: State, action: Action, env: UseCases): State
  {
    ReduceAll(s, Mutate(s, action, env))
  }

  class BookSearchViewReactor {
    var state: State

    constructor ()
      ensures state == InitialState()
    {
      state := InitialState();
    }

    /** Hands each emitted mutation to `reduce`, in order, replacing the state each time. */
    method Apply(ms: seq<Mutation>)
      modifies this
      ensures state == ReduceAll(old(state), ms)
    {
      var i := 0;
      while i < |ms|
        invariant 0 <= i <= |ms|
        invariant state == ReduceAll(old(state), ms[..i])
      {
        Reactor.FoldSnoc(Reduce, old(state), ms[..i], ms[i]);
        assert ms[..i + 1] == ms[..i] + [ms[i]];
        state := Reduce(state, ms[i]);
        i := i + 1;
      }
      assert ms[..i] == ms;
    }

    method LoadRecentBooks(env: UseCases)
      modifies this
      ensures state == Next(old(state), Action.LoadRecentBooks, env)
    {
      var ms := Mutate(state, Action.LoadRecentBooks, env);
      Apply(ms);
    }

    method Search(query: string, env: UseCases)
      modifies this
      ensures state == Next(old(state), Action.Search(query), env)
    {
      var ms := Mutate(state, Action.Search(query), env);
      Apply(ms);
    }

    /** Reads `currentState` once, before any mutation is emitted. */
    method LoadMoreSearchResults(env: UseCases)
      modifies this
      ensures state == Next(old(state), Action.LoadMoreSearchResults, env)
    {
      var ms := Mutate(state, Action.LoadMoreSearchResults, env);
      Apply(ms);
    }
  }

  /** Each mutation sets the one field it names; `appendSearchResults` appends to the old results. */
  lemma ReduceChangesOnlyNamedField(s: State, m: Mutation)
    ensures var r := Reduce(s, m);
      && (r.recentBooks != s.recentBooks ==> m.SetRecentBooks?)
      && (r.searchResults != s.searchResults ==> m.SetSearchResults? || m.AppendSearchResults?)
      && (r.currentPage != s.currentPage ==> m.SetCurrentPage?)
      && (r.isLoading != s.isLoading ==> m.SetLoading?)
      && (r.hasMore != s.hasMore ==> m.SetHasMore?)
      && (r.currentQuery != s.currentQuery ==> m.SetCurrentQuery?)
    ensures m.AppendSearchResults? ==> Reduce(s, m).searchResults == s.searchResults + m.books
  {
  }

  /** `loadRecentBooks` replaces only `recentBooks`, and only when the fetch succeeds. */
  lemma LoadRecentBooksReplacesOnlyRecent(s: State, env: UseCases)
    ensures Next(s, LoadRecentBooks, env)
         == if env.fetchRecentBooks.Success? then s.(recentBooks := env.fetchRecentBooks.value) else s
  {
    var ms := Mutate(s, LoadRecentBooks, env);
    if env.fetchRecentBooks.Success? {
      assert ReduceAll(s, ms) == ReduceAll(Reduce(s, ms[0]), ms[1..]);
      assert ms[1..] == [];
    }
  }

  /** `search("")` resets results, page, `hasMore` and query without calling the use case. */
  lemma SearchEmptyResets(s: State, env: UseCases, other: UseCases)
    ensures Mutate(s, Search(""), env) == Mutate(s, Search(""), other)
    ensures Next(s, Search(""), env)
         == s.(searchResults := [], currentPage := 1, hasMore := true, currentQuery := "")
  {
    var ms := Mutate(s, Search(""), env);
    var s1 := Reduce(s, ms[0]);
    var s2 := Reduce(s1, ms[1]);
    var s3 := Reduce(s2, ms[2]);
    assert ReduceAll(s, ms) == ReduceAll(s1, ms[1..]);
    assert ReduceAll(s1, ms[1..]) == ReduceAll(s2, ms[2..]);
    assert ReduceAll(s2, ms[2..]) == ReduceAll(s3, ms[3..]);
    assert ReduceAll(s3, ms[3..]) == ReduceAll(Reduce(s3, ms[3]), ms[4..]);
    assert ms[4..] == [];
  }

  /** A successful `search(q)` shows page 1 of `q`'s results and stops loading. */
  lemma SearchSucceeds(s: State, query: string, env: UseCases)
    requires query != "" && env.searchBook(query, 1).Success?
    ensures var result := env.searchBook(query, 1).value;
      Next(s, Search(query), env)
      == s.(searchResults := result.books, currentPage := 1, hasMore := !result.isEnd,
            currentQuery := query, isLoading := false)
  {
    var ms := Mutate(s, Search(query), env);
    var s1 := Reduce(s, ms[0]);
    var s2 := Reduce(s1, ms[1]);
    var s3 := Reduce(s2, ms[2]);
    var s4 := Reduce(s3, ms[3]);
    var s5 := Reduce(s4, ms[4]);
    assert ReduceAll(s, ms) == ReduceAll(s1, ms[1..]);
    assert ReduceAll(s1, ms[1..]) == ReduceAll(s2, ms[2..]);
    assert ReduceAll(s2, ms[2..]) == ReduceAll(s3, ms[3..]);
    assert ReduceAll(s3, ms[3..]) == ReduceAll(s4, ms[4..]);
    assert ReduceAll(s4, ms[4..]) == ReduceAll(s5, ms[5..]);
    assert ReduceAll(s5, ms[5..]) == ReduceAll(Reduce(s5, ms[5]), ms[6..]);
    assert ms[6..] == [];
  }

  /** A failed `search(q)` keeps the results, page and `hasMore`, records `q`, and stops loading. */
  lemma SearchFails(s: State, query: string, env: UseCases)
    requires query != "" && env.searchBook(query, 1).Failure?
    ensures Next(s, Search(query), env) == s.(currentQuery := query, isLoading := false)
  {
    var ms := Mutate(s, Search(query), env);
    var s1 := Reduce(s, ms[0]);
    var s2 := Reduce(s1, ms[1]);
    assert ReduceAll(s, ms) == ReduceAll(s1, ms[1..]);
    assert ReduceAll(s1, ms[1..]) == ReduceAll(s2, ms[2..]);
    assert ReduceAll(s2, ms[2..]) == ReduceAll(Reduce(s2, ms[2]), ms[3..]);
    assert ms[3..] == [];
  }

  /** `loadMoreSearchResults` emits nothing exactly when loading, out of pages, or without a query. */
  lemma LoadMoreGuard(s: State, env: UseCases)
    ensures Mutate(s, LoadMoreSearchResults, env) == [] <==> !CanLoadMore(s)
    ensures !CanLoadMore(s) ==> Next(s, LoadMoreSearchResults, env) == s
  {
  }

  /** A successful load more asks for the next page of the current query, appends it and advances the page by one. */
  lemma LoadMoreSucceeds(s: State, env: UseCases)
    requires CanLoadMore(s) && env.searchBook(s.currentQuery, s.currentPage + 1).Success?
    ensures var result := env.searchBook(s.currentQuery, s.currentPage + 1).value;
      Next(s, LoadMoreSearchResults, env)
      == s.(searchResults := s.searchResults + result.books, currentPage := s.currentPage + 1,
            hasMore := !result.isEnd, isLoading := false)
  {
    var ms := Mutate(s, LoadMoreSearchResults, env);
    var s1 := Reduce(s, ms[0]);
    var s2 := Reduce(s1, ms[1]);
    var s3 := Reduce(s2, ms[2]);
    var s4 := Reduce(s3, ms[3]);
    assert ReduceAll(s, ms) == ReduceAll(s1, ms[1..]);
    assert ReduceAll(s1, ms[1..]) == ReduceAll(s2, ms[2..]);
    assert ReduceAll(s2, ms[2..]) == ReduceAll(s3, ms[3..]);
    assert ReduceAll(s3, ms[3..]) == ReduceAll(s4, ms[4..]);
    assert ReduceAll(s4, ms[4..]) == ReduceAll(Reduce(s4, ms[4]), ms[5..]);
    assert ms[5..] == [];
  }

  /** A failed load more only turns loading on and off again, which leaves the state as it was. */
  lemma LoadMoreFails(s: State, env: UseCases)
    requires CanLoadMore(s) && env.searchBook(s.currentQuery, s.currentPage + 1).Failure?
    ensures Mutate(s, LoadMoreSearchResults, env) == [SetLoading(true), SetLoading(false)]
    ensures Next(s, LoadMoreSearchResults, env) == s
  {
    var ms := Mutate(s, LoadMoreSearchResults, env);
    var s1 := Reduce(s, ms[0]);
    assert ReduceAll(s, ms) == ReduceAll(s1, ms[1..]);
    assert ReduceAll(s1, ms[1..]) == ReduceAll(Reduce(s1, ms[1]), ms[2..]);
    assert ms[2..] == [];
  }

  /** Every outcome of every action keeps `currentPage >= 1`. */
  lemma ActionsKeepPagePositive(s: State, action: Action, env: UseCases)
    requires Valid(s)
    ensures Valid(Next(s, action, env))
  {
    match action
    case LoadRecentBooks =>
      LoadRecentBooksReplacesOnlyRecent(s, env);
    case Search(query) =>
      if query == "" {
        SearchEmptyResets(s, env, env);
      } else if env.searchBook(query, 1).Success? {
        SearchSucceeds(s, query, env);
      } else {
        SearchFails(s, query, env);
      }
    case LoadMoreSearchResults =>
      if !CanLoadMore(s) {
        LoadMoreGuard(s, env);
      } else if env.searchBook(s.currentQuery, s.currentPage + 1).Success? {
        LoadMoreSucceeds(s, env);
      } else {
        LoadMoreFails(s, env);
      }
  }

  /** Two successful loads in a row advance two pages and append both pages in order. */
  lemma LoadMoreTwice(s: State, env: UseCases)
    requires CanLoadMore(s)
    requires env.searchBook(s.currentQuery, s.currentPage + 1).Success?
    requires !env.searchBook(s.currentQuery, s.currentPage + 1).value.isEnd
    requires env.searchBook(s.currentQuery, s.currentPage + 2).Success?
    ensures var first := env.searchBook(s.currentQuery, s.currentPage + 1).value.books;
      var second := env.searchBook(s.currentQuery, s.currentPage + 2).value.books;
      var t := Next(Next(s, LoadMoreSearchResults, env), LoadMoreSearchResults, env);
      t.currentPage == s.currentPage + 2 && t.searchResults == s.searchResults + first + second
  {
    LoadMoreSucceeds(s, env);
    var s1 := Next(s, LoadMoreSearchResults, env);
    assert s1.currentPage + 1 == s.currentPage + 2;
    LoadMoreSucceeds(s1, env);
  }

  /** Searching "사피엔스" against a one-book first page that is not the last gives that page, `hasMore`, page 1. */
  lemma SapiensScenario(s: State, book: Book, env: UseCases)
    requires env.searchBook("사피엔스", 1) == Success(BookSearchResult([book], false))
    ensures var t := Next(s, Search("사피엔스"), env);
      |t.searchResults| == 1 && t.hasMore && t.currentPage == 1 && !t.isLoading
  {
    SearchSucceeds(s, "사피엔스", env);
  }
}
