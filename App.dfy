/** The movie-list page: the filter, the search, the selection updates and the
    view state its handlers change. */
module App {
  import opened Movies
  import Seqs
  import Text

  /** The filter names the page's buttons pass. Any other string excludes nothing. */
  const All: string := "all"
  const Watched: string := "watched"
  const Unwatched: string := "unwatched"

  /** Reference reading of a filter: `watched` admits only watched movies,
      `unwatched` only unwatched ones, anything else admits every movie. */
  predicate Passes(m: Movie, activeFilter: string) {
    (activeFilter == Watched ==> m.watched) && (activeFilter == Unwatched ==> !m.watched)
  }

  /** `applyFilter`: the movies of `data` the active filter admits. */
  function ApplyFilter(data: seq<Movie>, activeFilter: string): (r: seq<Movie>)
    ensures |r| <= |data|
    ensures forall m :: m in r ==> m in data && Passes(m, activeFilter)
  {
    if activeFilter == Watched then Seqs.Filter((m: Movie) => m.watched, data)
    else if activeFilter == Unwatched then Seqs.Filter((m: Movie) => !m.watched, data)
    else data
  }

  /** The result of `applyFilter` is the input with exactly the movies the
      filter rejects deleted: same order, same multiplicities, nothing added. */
  lemma ApplyFilterExact(data: seq<Movie>, activeFilter: string, m: Movie)
    ensures Seqs.IsSubsequence(ApplyFilter(data, activeFilter), data)
    ensures multiset(ApplyFilter(data, activeFilter))[m] ==
      if Passes(m, activeFilter) then multiset(data)[m] else 0
  {
    if activeFilter == Watched {
      Seqs.FilterIsSubsequence((m: Movie) => m.watched, data);
      Seqs.FilterCount((m: Movie) => m.watched, data, m);
    } else if activeFilter == Unwatched {
      Seqs.FilterIsSubsequence((m: Movie) => !m.watched, data);
      Seqs.FilterCount((m: Movie) => !m.watched, data, m);
    } else {
      Seqs.FilterIsSubsequence((m: Movie) => true, data);
      Seqs.FilterKeepsAll((m: Movie) => true, data);
    }
  }

  /** A filter other than `watched` and `unwatched` leaves the list as it is. */
  lemma ApplyFilterOther(data: seq<Movie>, activeFilter: string)
    requires activeFilter != Watched && activeFilter != Unwatched
    ensures ApplyFilter(data, activeFilter) == data
  {
  }

  /** `applyFilter` returns its input exactly when the filter admits every movie in it. */
  lemma ApplyFilterUnchangedIff(data: seq<Movie>, activeFilter: string)
    ensures ApplyFilter(data, activeFilter) == data <==>
      forall i :: 0 <= i < |data| ==> Passes(data[i], activeFilter)
  {
    if forall i :: 0 <= i < |data| ==> Passes(data[i], activeFilter) {
      if activeFilter == Watched {
        Seqs.FilterKeepsAll((m: Movie) => m.watched, data);
      } else if activeFilter == Unwatched {
        Seqs.FilterKeepsAll((m: Movie) => !m.watched, data);
      }
    }
  }

  /** `watched` and `unwatched` split any list: no movie lands in both, every
      movie lands in one, and the counts add up to the list's length. */
  lemma WatchedPartition(data: seq<Movie>)
    ensures multiset(ApplyFilter(data, Watched)) + multiset(ApplyFilter(data, Unwatched)) == multiset(data)
    ensures |ApplyFilter(data, Watched)| + |ApplyFilter(data, Unwatched)| == |data|
    ensures forall m :: m in ApplyFilter(data, Watched) ==> m !in ApplyFilter(data, Unwatched)
    ensures forall m :: m in data ==> m in ApplyFilter(data, Watched) || m in ApplyFilter(data, Unwatched)
  {
    var w := ApplyFilter(data, Watched);
    var u := ApplyFilter(data, Unwatched);
    Seqs.FilterPartition((m: Movie) => m.watched, (m: Movie) => !m.watched, data);
    forall m | m in data ensures m in w || m in u {
      assert m in multiset(data);
    }
  }

  /** Applying the same filter twice gives what applying it once gives. */
  lemma ApplyFilterIdempotent(data: seq<Movie>, activeFilter: string)
    ensures ApplyFilter(ApplyFilter(data, activeFilter), activeFilter) == ApplyFilter(data, activeFilter)
  {
    if activeFilter == Watched {
      Seqs.FilterIdempotent((m: Movie) => m.watched, data);
    } else if activeFilter == Unwatched {
      Seqs.FilterIdempotent((m: Movie) => !m.watched, data);
    }
  }

  /** The search test: the lowercased title contains the lowercased query. */
  predicate MatchesQuery(m: Movie, query: string) {
    Text.Includes(Text.ToLower(m.title), Text.ToLower(query))
  }

  /** The search matches, always taken from the list it is given. */
  function SearchMatches(movies: seq<Movie>, query: string): (r: seq<Movie>)
    ensures |r| <= |movies|
    ensures forall m :: m in r ==> m in movies && MatchesQuery(m, query)
  {
    Seqs.Filter((m: Movie) => MatchesQuery(m, query), movies)
  }

  /** What a search displays: the active filter applied to the matches. */
  function SearchResults(movies: seq<Movie>, query: string, activeFilter: string): (r: seq<Movie>)
    ensures forall m :: m in r ==> m in movies && MatchesQuery(m, query) && Passes(m, activeFilter)
  {
    ApplyFilter(SearchMatches(movies, query), activeFilter)
  }

  /** A search shows exactly the movies of the full list that match the query
      and pass the filter, in list order and with their multiplicities. */
  lemma SearchResultsExact(movies: seq<Movie>, query: string, activeFilter: string, m: Movie)
    ensures Seqs.IsSubsequence(SearchResults(movies, query, activeFilter), movies)
    ensures multiset(SearchResults(movies, query, activeFilter))[m] ==
      if MatchesQuery(m, query) && Passes(m, activeFilter) then multiset(movies)[m] else 0
  {
    var q := (x: Movie) => MatchesQuery(x, query);
    var p := (x: Movie) => Passes(x, activeFilter);
    var pq := (x: Movie) => p(x) && q(x);
    if activeFilter == Watched {
      Seqs.FilterExtensional((x: Movie) => x.watched, p, SearchMatches(movies, query));
    } else if activeFilter == Unwatched {
      Seqs.FilterExtensional((x: Movie) => !x.watched, p, SearchMatches(movies, query));
    } else {
      Seqs.FilterKeepsAll(p, SearchMatches(movies, query));
    }
    assert SearchResults(movies, query, activeFilter) == Seqs.Filter(p, Seqs.Filter(q, movies));
    Seqs.FilterFuse(p, q, pq, movies);
    Seqs.FilterIsSubsequence(pq, movies);
    Seqs.FilterCount(pq, movies, m);
  }

  /** Searching then filtering is filtering then searching. */
  lemma SearchCommutesWithFilter(movies: seq<Movie>, query: string, activeFilter: string)
    ensures SearchResults(movies, query, activeFilter) == SearchMatches(ApplyFilter(movies, activeFilter), query)
  {
    var q := (x: Movie) => MatchesQuery(x, query);
    if activeFilter == Watched {
      Seqs.FilterCommute((x: Movie) => x.watched, q, movies);
    } else if activeFilter == Unwatched {
      Seqs.FilterCommute((x: Movie) => !x.watched, q, movies);
    }
  }

  /** The empty query matches every title, so searching for it shows the filtered full list. */
  lemma EmptySearchShowsFilteredList(movies: seq<Movie>, activeFilter: string)
    ensures SearchMatches(movies, "") == movies
    ensures SearchResults(movies, "", activeFilter) == ApplyFilter(movies, activeFilter)
  {
    Seqs.FilterKeepsAll((m: Movie) => MatchesQuery(m, ""), movies);
  }

  /** The search ignores the case of the query's ASCII letters. */
  lemma SearchIgnoresQueryCase(movies: seq<Movie>, query: string)
    ensures SearchMatches(movies, Text.ToLower(query)) == SearchMatches(movies, query)
  {
    Text.ToLowerIdempotent(query);
    Seqs.FilterExtensional((m: Movie) => MatchesQuery(m, Text.ToLower(query)),
                           (m: Movie) => MatchesQuery(m, query), movies);
  }

  /** The detail panel after deleting `id`: cleared exactly when it shows that id. */
  function SelectionAfterDelete(selected: Option<Movie>, id: int): (r: Option<Movie>)
    ensures r == None <==> selected == None || selected.value.id == id
    ensures r != None ==> r == selected
  {
    if selected.Some? && selected.value.id == id then None else selected
  }

  /** The detail panel after toggling `id`: a panel showing that id has its
      `watched` flag negated and every other field kept; any other panel is kept. */
  function SelectionAfterToggle(selected: Option<Movie>, id: int): (r: Option<Movie>)
    ensures r.Some? <==> selected.Some?
    ensures r.Some? ==>
      (r.value.id == selected.value.id && r.value.title == selected.value.title &&
       r.value.posterPath == selected.value.posterPath && r.value.overview == selected.value.overview)
    ensures r.Some? ==> r.value.watched == (selected.value.watched != (selected.value.id == id))
  {
    if selected.Some? && selected.value.id == id
    then Some(selected.value.(watched := !selected.value.watched))
    else selected
  }

  /** Two successful toggles of the same id restore the panel. */
  lemma ToggleSelectionTwice(selected: Option<Movie>, id: int)
    ensures SelectionAfterToggle(SelectionAfterToggle(selected, id), id) == selected
  {
  }

  /** A second delete of the same id leaves the panel as the first left it. */
  lemma DeleteSelectionIdempotent(selected: Option<Movie>, id: int)
    ensures SelectionAfterDelete(SelectionAfterDelete(selected, id), id) == SelectionAfterDelete(selected, id)
  {
  }

  /** The page's view state. */
  class MovieList {
    var movies: seq<Movie>
    var newTitle: string
    var query: string
    var filteredMovies: seq<Movie>
    var filter: string
    var selectedMovie: Option<Movie>
    var loading: bool
    /** The query whose search the displayed list still reflects; "" when none does. */
    ghost var searched: string

    /** The displayed list is always the active filter applied to a search of the full list. */
    ghost predicate Valid()
      reads this
    {
      filteredMovies == SearchResults(movies, searched, filter)
    }

    /** The state at mount: nothing loaded yet, `loading` on, filter `all`. */
    constructor ()
      ensures Valid()
      ensures movies == [] && filteredMovies == [] && newTitle == "" && query == ""
      ensures filter == All && selectedMovie == None && loading
    {
      movies, newTitle, query, filteredMovies := [], "", "", [];
      filter, selectedMovie, loading := All, None, true;
      searched := "";
    }

    /** `fetchMovies` succeeded with `data`: store it, show it through the
        active filter (dropping any search) and clear `loading`. */
    method LoadSucceeded(data: seq<Movie>)
      modifies this`movies, this`filteredMovies, this`loading, this`searched
      ensures Valid()
      ensures movies == data && filteredMovies == ApplyFilter(data, filter) && !loading
      ensures searched == ""
    {
      movies := data;
      filteredMovies := ApplyFilter(data, filter);
      loading := false;
      searched := "";
      EmptySearchShowsFilteredList(data, filter);
    }

    /** `fetchMovies` failed: only `loading` changes. */
    method LoadFailed()
      modifies this`loading
      ensures !loading
    {
      loading := false;
    }

    /** The add form's input changed. */
    method TitleEdited(value: string)
      modifies this`newTitle
      ensures newTitle == value
    {
      newTitle := value;
    }

    /** The search form's input changed. */
    method QueryEdited(value: string)
      modifies this`query
      ensures query == value
    {
      query := value;
    }

    /** `handleAdd` on submit: a blank title changes nothing and sends nothing;
        any other title is posted as typed, untrimmed. */
    method SubmitAdd() returns (request: Option<Request>)
      ensures request == None <==> Text.IsBlank(newTitle)
      ensures request != None ==> request.value == CreateMovie(newTitle)
    {
      if Text.Trim(newTitle) == [] {
        request := None;
      } else {
        request := Some(CreateMovie(newTitle));
      }
    }

    /** The add request answered: clear the input and reload the list. */
    method AddSucceeded() returns (request: Request)
      modifies this`newTitle
      ensures newTitle == "" && request == ListMovies
    {
      newTitle := "";
      request := ListMovies;
    }

    /** A delete button was clicked: send the delete of `id`; no state changes. */
    method DeleteClicked(id: int) returns (request: Request)
      ensures request == DeleteMovie(id)
    {
      request := DeleteMovie(id);
    }

    /** A toggle button was clicked: send the toggle of `id`; no state changes. */
    method ToggleClicked(id: int) returns (request: Request)
      ensures request == ToggleMovie(id)
    {
      request := ToggleMovie(id);
    }

    /** The delete of `id` answered: close the panel if it shows `id`, and reload. */
    method DeleteSucceeded(id: int) returns (request: Request)
      modifies this`selectedMovie
      ensures selectedMovie == SelectionAfterDelete(old(selectedMovie), id)
      ensures request == ListMovies
    {
      if selectedMovie.Some? && selectedMovie.value.id == id {
        selectedMovie := None;
      }
      request := ListMovies;
    }

    /** The toggle of `id` answered: reload, and flip the panel's flag if it shows `id`. */
    method ToggleSucceeded(id: int) returns (request: Request)
      modifies this`selectedMovie
      ensures selectedMovie == SelectionAfterToggle(old(selectedMovie), id)
      ensures request == ListMovies
    {
      request := ListMovies;
      if selectedMovie.Some? && selectedMovie.value.id == id {
        var prev := selectedMovie.value;
        selectedMovie := Some(prev.(watched := !prev.watched));
      }
    }

    /** `handleSearch`: match the query against the full list, then apply the active filter. */
    method SearchSubmitted()
      modifies this`filteredMovies, this`searched
      ensures Valid()
      ensures filteredMovies == SearchResults(movies, query, filter)
      ensures searched == query
    {
      var matches := SearchMatches(movies, query);
      filteredMovies := ApplyFilter(matches, filter);
      searched := query;
    }

    /** `handleFilterChange`: adopt the filter and apply it to the full list,
        discarding any search. */
    method FilterChanged(newFilter: string)
      modifies this`filter, this`filteredMovies, this`searched
      ensures Valid()
      ensures filter == newFilter && filteredMovies == ApplyFilter(movies, newFilter)
      ensures searched == ""
    {
      filter := newFilter;
      filteredMovies := ApplyFilter(movies, newFilter);
      searched := "";
      EmptySearchShowsFilteredList(movies, newFilter);
    }

    /** A title was clicked: open its detail panel. */
    method Select(m: Movie)
      modifies this`selectedMovie
      ensures selectedMovie == Some(m)
    {
      selectedMovie := Some(m);
    }

    /** The panel's close control was clicked. */
    method Close()
      modifies this`selectedMovie
      ensures selectedMovie == None
    {
      selectedMovie := None;
    }
  }
}
