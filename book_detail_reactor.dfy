/**
 * `BookDetailViewReactor`: one book's bookmark flag, checked on appearance and toggled on demand.
 * What the bookmark use cases deliver is an explicit input (`UseCases`).
 */
module BookDetail {
  import opened Wrappers
  import opened Books
  import Reactor
  import StoredBook
  import Table
  import BookmarkEntity

  /** What `CheckBookmarkUseCase`, `AddBookmarkUseCase` and `RemoveBookmarkUseCase` deliver. */
  datatype UseCases = UseCases(checkBookmark: Outcome<bool>, addBookmark: Outcome<()>, removeBookmark: Outcome<()>)

  datatype Action = ToggleBookmark | CheckBookmarkStatus

  datatype Mutation = SetBookmarked(isBookmarked: bool) | SetLoading(isLoading: bool)

  datatype State = State(book: Book, isBookmarked: bool, isLoading: bool)

  /** `State(book: book)`: not bookmarked and not loading until checked. */
  function InitialState(book: Book): (s: State)
    ensures s.book == book && !s.isBookmarked && !s.isLoading
  {
    State(book, false, false)
  }

  /** `reduce(state:mutation:)`. */
  function Reduce(s: State, m: Mutation): State {
    match m
    case SetBookmarked(isBookmarked) => s.(isBookmarked := isBookmarked)
    case SetLoading(isLoading) => s.(isLoading := isLoading)
  }

  function ReduceAll(s: State, ms: seq<Mutation>): State {
    Reactor.Fold(Reduce, s, ms)
  }

  /**
   * `mutate(action:)`. The toggle branch is chosen from `current.isBookmarked`, read before anything
   * is emitted. `setLoading(true)` is emitted before the use case runs; the toggle stream has no
   * `catch`, so a failed use case ends the stream right after it.
   */
  function Mutate(current: State, action: Action, env: UseCases): seq<Mutation> {
    match action
    case CheckBookmarkStatus =>
      if env.checkBookmark.Success? then [SetBookmarked(env.checkBookmark.value)] else []
    case ToggleBookmark =>
      if current.isBookmarked then
        if env.removeBookmark.Success? then [SetLoading(true), SetBookmarked(false), SetLoading(false)]
        else [SetLoading(true)]
      else
        if env.addBookmark.Success? then [SetLoading(true), SetBookmarked(true), SetLoading(false)]
        else [SetLoading(true)]
  }

  function Next(s: State, action: Action, env: UseCases): State {
    ReduceAll(s, Mutate(s, action, env))
  }

  class BookDetailViewReactor {
    const book: Book
    var state: State

    ghost predicate Valid()
      reads this
    {
      state.book == book
    }

    constructor (book: Book)
      ensures Valid() && this.book == book && state == InitialState(book)
    {
      this.book := book;
      state := InitialState(book);
    }

    method Apply(ms: seq<Mutation>)
      modifies this
      ensures state == ReduceAll(old(state), ms)
    {
      var i := 0;
      while i < |ms|
        invariant 0 <= i <= |ms|
        invariant state == ReduceAll(old(state), ms[..i])
      {
        Reactor.FoldSnoc(Reduce, old(state), ms[..i], ms[i]);
        assert ms[..i + 1] == ms[..i] + [ms[i]];
        state := Reduce(state, ms[i]);
        i := i + 1;
      }
      assert ms[..i] == ms;
    }

    method CheckBookmarkStatus(env: UseCases)
      requires Valid()
      modifies this
      ensures Valid()
      ensures state == Next(old(state), Action.CheckBookmarkStatus, env)
    {
      var ms := Mutate(state, Action.CheckBookmarkStatus, env);
      Apply(ms);
      ReduceKeepsBook(old(state), ms);
    }

    method ToggleBookmark(env: UseCases)
      requires Valid()
      modifies this
      ensures Valid()
      ensures state == Next(old(state), Action.ToggleBookmark, env)
    {
      var ms := Mutate(state, Action.ToggleBookmark, env);
      Apply(ms);
      ReduceKeepsBook(old(state), ms);
    }
  }

  /** No mutation changes the book, and each sets only the flag it names. */
  lemma {:induction false} ReduceKeepsBook(s: State, ms: seq<Mutation>)
    ensures ReduceAll(s, ms).book == s.book
    decreases |ms|
  {
    if ms != [] {
      ReduceKeepsBook(Reduce(s, ms[0]), ms[1..]);
    }
  }

  /** Each mutation sets only the flag it names and never the book. */
  lemma ReduceChangesOnlyNamedFlag(s: State, m: Mutation)
    ensures Reduce(s, m).book == s.book
    ensures m.SetBookmarked? ==> Reduce(s, m).isLoading == s.isLoading && Reduce(s, m).isBookmarked == m.isBookmarked
    ensures m.SetLoading? ==> Reduce(s, m).isBookmarked == s.isBookmarked && Reduce(s, m).isLoading == m.isLoading
  {
  }

  /** `checkBookmarkStatus` sets the flag to the answer and leaves loading alone; a failed check changes nothing. */
  lemma CheckSetsFlag(s: State, env: UseCases)
    ensures Next(s, CheckBookmarkStatus, env)
         == if env.checkBookmark.Success? then s.(isBookmarked := env.checkBookmark.value) else s
  {
    var ms := Mutate(s, CheckBookmarkStatus, env);
    if env.checkBookmark.Success? {
      assert ReduceAll(s, ms) == ReduceAll(Reduce(s, ms[0]), ms[1..]);
      assert ms[1..] == [];
    }
  }

  /** A successful toggle emits loading on, the flipped flag, loading off, and ends flipped and idle. */
  lemma ToggleSucceeds(s: State, env: UseCases)
    requires if s.isBookmarked then env.removeBookmark.Success? else env.addBookmark.Success?
    ensures Mutate(s, ToggleBookmark, env) == [SetLoading(true), SetBookmarked(!s.isBookmarked), SetLoading(false)]
    ensures Next(s, ToggleBookmark, env) == s.(isBookmarked := !s.isBookmarked, isLoading := false)
  {
    var ms := Mutate(s, ToggleBookmark, env);
    var s1 := Reduce(s, ms[0]);
    var s2 := Reduce(s1, ms[1]);
    assert ReduceAll(s, ms) == ReduceAll(s1, ms[1..]);
    assert ReduceAll(s1, ms[1..]) == ReduceAll(s2, ms[2..]);
    assert ReduceAll(s2, ms[2..]) == ReduceAll(Reduce(s2, ms[2]), ms[3..]);
    assert ms[3..] == [];
  }

  /** A failed toggle leaves the flag as it was and the loading flag on, since nothing turns it off. */
  lemma ToggleFails(s: State, env: UseCases)
    requires if s.isBookmarked then env.removeBookmark.Failure? else env.addBookmark.Failure?
    ensures Next(s, ToggleBookmark, env) == s.(isLoading := true)
  {
    var ms := Mutate(s, ToggleBookmark, env);
    assert ReduceAll(s, ms) == ReduceAll(Reduce(s, ms[0]), ms[1..]);
    assert ms[1..] == [];
  }

  /** The mutations a toggle emits depend on the state only through `isBookmarked`. */
  lemma ToggleBranchesOnFlag(s: State, t: State, env: UseCases)
    requires s.isBookmarked == t.isBookmarked
    ensures Mutate(s, ToggleBookmark, env) == Mutate(t, ToggleBookmark, env)
  {
  }

  /** Two successful toggles in a row bring the flag back to where it started. */
  lemma ToggleTwice(s: State, env: UseCases)
    requires env.addBookmark.Success? && env.removeBookmark.Success?
    ensures var t := Next(Next(s, ToggleBookmark, env), ToggleBookmark, env);
      t.isBookmarked == s.isBookmarked && !t.isLoading && t.book == s.book
  {
    ToggleSucceeds(s, env);
    ToggleSucceeds(Next(s, ToggleBookmark, env), env);
  }

  /**
   * Toggling a book that is not bookmarked twice, each against the bookmark table, ends
   * not bookmarked with no row left for its title.
   */
  lemma ToggleTwiceAgainstStore(s: State, rows: seq<StoredBook.Row>, now: Timestamp, env: UseCases)
    requires !s.isBookmarked && Table.CountTitle(rows, s.book.title) == 0
    requires env.addBookmark.Success? && env.removeBookmark.Success?
    ensures var afterAdd := rows + [BookmarkEntity.From(s.book, now)];
      var afterRemove := Table.WithoutTitle(afterAdd, s.book.title);
      && Table.CountTitle(afterAdd, s.book.title) == 1
      && Table.CountTitle(afterRemove, s.book.title) == 0
      && afterRemove == rows
      && !Next(Next(s, ToggleBookmark, env), ToggleBookmark, env).isBookmarked
  {
    ToggleTwice(s, env);
    var entity := BookmarkEntity.From(s.book, now);
    var afterAdd := rows + [entity];
    Table.CountTitleAppend(rows, entity, s.book.title);
    Table.CountWithoutTitle(afterAdd, s.book.title, s.book.title);
    Table.WithoutAbsentTitle(rows, s.book.title);
    assert afterAdd[..|afterAdd| - 1] == rows;
  }
}
