/** The movie store: the list of movies on screen, the movie whose details are
    open, the page cursor, the loading and search-mode flags, the active search
    text and the card-size preference, with the actions that update them. */
module Store {
  import opened MovieList

  datatype Option<T> = None | Some(value: T)

  /** The card-size preference: small, medium or large. */
  datatype CardSize = Sm | Md | Lg

  /** A snapshot of every field of the store, so that each action can state its
      whole new state as an update of the old one. */
  datatype StoreState = StoreState(
    movies: seq<Movie>,
    selectedMovie: Option<Movie>,
    currentPage: int,
    isLoading: bool,
    isSearchMode: bool,
    query: string,
    cardSize: CardSize)

  /** The state the store starts in. */
  const InitialState := StoreState([], None, 1, false, false, "", Lg)

  class MovieStore {
    var movies: seq<Movie>
    var selectedMovie: Option<Movie>
    var currentPage: int
    var isLoading: bool
    var isSearchMode: bool
    var query: string
    var cardSize: CardSize

    /** All fields of the store at once. */
    function State(): StoreState
      reads this
    {
      StoreState(movies, selectedMovie, currentPage, isLoading, isSearchMode, query, cardSize)
    }

    /** A fresh store: no movies, nothing selected, page 1, not loading, not
        searching, empty query, large cards. */
    constructor ()
      ensures State() == InitialState
      ensures movies == [] && selectedMovie == None && currentPage == 1
      ensures !isLoading && !isSearchMode && query == "" && cardSize == Lg
    {
      movies := [];
      selectedMovie := None;
      currentPage := 1;
      isLoading := false;
      isSearchMode := false;
      query := "";
      cardSize := Lg;
    }

    /** Replaces the list wholesale; no deduplication. */
    method SetMovies(payload: seq<Movie>)
      modifies this
      ensures State() == old(State()).(movies := payload)
    {
      movies := payload;
    }

    /** Pushes the records of the payload whose id the list does not already
        hold. The old list stays as an unchanged prefix, the added suffix is the
        payload filtered against the ids present before the call, the ids are
        the union of the old ones and the payload's, and distinct ids are kept
        distinct when the payload's ids are distinct. */
    method AppendMovies(payload: seq<Movie>)
      modifies this
      ensures State() == old(State()).(movies := Appended(old(movies), payload))
      ensures movies[..|old(movies)|] == old(movies)
      ensures movies[|old(movies)|..] == FilterNew(IdsOf(old(movies)), payload)
      ensures IdsOf(movies) == IdsOf(old(movies)) + IdsOf(payload)
      ensures DistinctIds(old(movies)) && DistinctIds(payload) ==> DistinctIds(movies)
      ensures payload == [] ==> movies == old(movies)
    {
      ghost var before := movies;
      var existingIds := IdsOf(movies);
      var newMovies := FilterNew(existingIds, payload);
      movies := movies + newMovies;
      assert movies[|before|..] == newMovies;
      AppendedIds(before, payload);
      if DistinctIds(before) && DistinctIds(payload) {
        AppendKeepsDistinct(before, payload);
      }
      if payload == [] {
        AppendEmpty(before);
      }
    }

    /** Replaces the selected movie wholesale (None stands for `null`). */
    method SetSelectedMovie(payload: Option<Movie>)
      modifies this
      ensures State() == old(State()).(selectedMovie := payload)
    {
      selectedMovie := payload;
    }

    /** Sets the page cursor; any value is accepted. */
    method SetPage(page: int)
      modifies this
      ensures State() == old(State()).(currentPage := page)
    {
      currentPage := page;
    }

    method SetLoading(loading: bool)
      modifies this
      ensures State() == old(State()).(isLoading := loading)
    {
      isLoading := loading;
    }

    /** Sets the search mode and the query; a call without a query sets the
        query to the empty string rather than keeping the old one. */
    method SetSearchMode(isSearch: bool, query: string := "")
      modifies this
      ensures State() == old(State()).(isSearchMode := isSearch, query := query)
    {
      this.isSearchMode := isSearch;
      this.query := query;
    }

    method SetCardSize(size: CardSize)
      modifies this
      ensures State() == old(State()).(cardSize := size)
    {
      cardSize := size;
    }
  }

  /** Entering search mode with a query and then leaving it without one leaves
      the query empty, not at its last value. */
  method LeaveSearchClearsQuery(text: string) returns (searching: bool, query: string)
    ensures !searching && query == ""
  {
    var store := new MovieStore();
    store.SetSearchMode(true, text);
    assert store.query == text;
    store.SetSearchMode(false);
    searching, query := store.isSearchMode, store.query;
  }

  /** Setting a list and then appending the same list leaves it as it was. */
  method SetThenAppendSame(xs: seq<Movie>) returns (result: seq<Movie>)
    ensures result == xs
  {
    var store := new MovieStore();
    store.SetMovies(xs);
    store.AppendMovies(xs);
    AppendSameIsIdentity(xs);
    result := store.movies;
  }
}
