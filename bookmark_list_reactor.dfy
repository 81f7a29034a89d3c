/**
 * `BookmarkListViewReactor`: the bookmark list screen. What `FetchBookmarksUseCase` delivers is an
 * explicit input; the reactor itself is a pure function from state and action to the next state.
 */
module BookmarkList {
  import opened Wrappers
  import opened Books
  import Reactor

  datatype Action = LoadBookmarks | SelectBook(book: Book)

  datatype Mutation = SetBookmarks(books: seq<Book>) | SetLoading(isLoading: bool) | PresentDetail(book: Book)

  datatype State = State(bookmarks: seq<Book>, isLoading: bool, selectedBook: Option<Book>)

  /** `State()`: nothing listed, not loading, nothing selected. */
  function InitialState(): (s: State)
    ensures s.bookmarks == [] && !s.isLoading && s.selectedBook == None
  {
    State([], false, None)
  }

  /** `reduce(state:mutation:)`. */
  function Reduce(s: State, m: Mutation): State {
    match m
    case SetBookmarks(books) => s.(bookmarks := books)
    case SetLoading(isLoading) => s.(isLoading := isLoading)
    case PresentDetail(book) => s.(selectedBook := Some(book))
  }

  function ReduceAll(s: State, ms: seq<Mutation>): State {
    Reactor.Fold(Reduce, s, ms)
  }

  /**
   * `mutate(action:)`. Loading starts with `setLoading(true)`; the fetch has no `catch`, so a failed
   * fetch ends the stream after it. Selecting a book emits one `presentDetail`.
   */
  function Mutate(action: Action, fetched: Outcome<seq<Book>>): seq<Mutation> {
    match action
    case LoadBookmarks =>
      if fetched.Success? then [SetLoading(true), SetBookmarks(fetched.value), SetLoading(false)]
      else [SetLoading(true)]
    case SelectBook(book) => [PresentDetail(book)]
  }

  function Next(s: State, action: Action, fetched: Outcome<seq<Book>>): State {
    ReduceAll(s, Mutate(action, fetched))
  }

  /** Each mutation sets only the field it names. */
  lemma ReduceChangesOnlyNamedField(s: State, m: Mutation)
    ensures m.SetBookmarks? ==> Reduce(s, m) == State(m.books, s.isLoading, s.selectedBook)
    ensures m.SetLoading? ==> Reduce(s, m) == State(s.bookmarks, m.isLoading, s.selectedBook)
    ensures m.PresentDetail? ==> Reduce(s, m) == State(s.bookmarks, s.isLoading, Some(m.book))
  {
  }

  /** A successful load lists exactly the fetched books, ends idle and keeps the selection. */
  lemma LoadSucceeds(s: State, books: seq<Book>)
    ensures Next(s, LoadBookmarks, Success(books)) == State(books, false, s.selectedBook)
  {
    var ms := Mutate(LoadBookmarks, Success(books));
    var s1 := Reduce(s, ms[0]);
    var s2 := Reduce(s1, ms[1]);
    assert ReduceAll(s, ms) == ReduceAll(s1, ms[1..]);
    assert ReduceAll(s1, ms[1..]) == ReduceAll(s2, ms[2..]);
    assert ReduceAll(s2, ms[2..]) == ReduceAll(Reduce(s2, ms[2]), ms[3..]);
    assert ms[3..] == [];
  }

  /** A failed load keeps the previous list and selection and leaves the loading flag on. */
  lemma LoadFails(s: State)
    ensures Next(s, LoadBookmarks, Failure) == s.(isLoading := true)
  {
    var ms := Mutate(LoadBookmarks, Failure);
    assert ReduceAll(s, ms) == ReduceAll(Reduce(s, ms[0]), ms[1..]);
    assert ms[1..] == [];
  }

  /** Selecting a book records it for presentation and changes nothing else, whatever the fetch would give. */
  lemma SelectBookPresents(s: State, book: Book, fetched: Outcome<seq<Book>>)
    ensures Next(s, SelectBook(book), fetched) == s.(selectedBook := Some(book))
  {
    var ms := Mutate(SelectBook(book), fetched);
    assert ReduceAll(s, ms) == ReduceAll(Reduce(s, ms[0]), ms[1..]);
    assert ms[1..] == [];
  }

  /** Loading after a selection keeps that selection; the list shown is the last successful fetch. */
  lemma LoadAfterSelectKeepsSelection(book: Book, books: seq<Book>)
    ensures Next(Next(InitialState(), SelectBook(book), Failure), LoadBookmarks, Success(books))
         == State(books, false, Some(book))
  {
    SelectBookPresents(InitialState(), book, Failure);
    LoadSucceeds(InitialState().(selectedBook := Some(book)), books);
  }
}
