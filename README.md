# Movie list: the client's view-state machine

This project models the view logic of the movie-list web client (`client/src/App.js`).
The page holds the full list of movies fetched from the API and a displayed list derived from it.
It also holds the active filter (`all`, `watched`, `unwatched`), the search query, the add form's
title buffer, the movie open in the detail panel, and a loading flag.

- `Seqs.dfy` models JavaScript's `Array.prototype.filter`.
  It proves that filtering only deletes elements (an order-preserving subsequence with exact multiplicities).
  It also proves that a predicate and its negation split a list, and that filters fuse, commute and are idempotent.
- `Text.dfy` models `trim` (with ECMAScript's whitespace set), `toLowerCase` on ASCII letters, and `includes`.
- `Movies.dfy` holds the movie record and the HTTP requests a handler can start.
- `App.dfy` holds `applyFilter`, the search match and the detail-panel updates as functions with lemmas.
  It also holds the page state as the class `MovieList`, with one method per handler.
  The class invariant `Valid()` says that the displayed list is always the active filter applied to
  a search of the full list. A ghost field `searched` records the query whose search is still shown,
  and is `""` when none is. Loading and filter changes reset it; a search sets it.
  The handlers that change only the title buffer, the selection or `loading` keep `Valid()` by their frames.

The asynchronous handlers are modelled step by step:
- `handleAdd` has a submit step, `SubmitAdd`, which returns the POST it starts (or none), and a success step, `AddSucceeded`.
- `handleDelete` and `handleToggleWatched` each have a click step (`DeleteClicked`, `ToggleClicked`) that returns the request it starts and changes nothing. Each also has a success step (`DeleteSucceeded`, `ToggleSucceeded`).
- `fetchMovies` has a success step (`LoadSucceeded`) and a failure step (`LoadFailed`).
- Every success step except `LoadSucceeded` returns the `GET /movies` reload it starts.
- Only `LoadSucceeded` receives the server's answer, the fetched list. The add, delete and toggle callbacks ignore the response body. So `AddSucceeded` takes no argument, and `DeleteSucceeded` and `ToggleSucceeded` take only the id the handler was called with.
- The `GET /movies` started on mount (`useEffect`) has no member of its own. The constructor gives the state before it, and its answer is `LoadSucceeded` or `LoadFailed`.

Two behaviours of the code a reader might not expect:
- `fetchMovies` never sets `loading` back to true. Only the initial state has it on, so a reload after a mutation shows no loading state.
- A failed load leaves `movies` and the displayed list as they were. They are empty only when the first load fails.

## Model

| member | source | states |
|---|---|---|
| `Seqs.Filter` | client/src/App.js:19-21 | `filter` returns no more elements than its input, and every result element is in the input and satisfies the predicate |
| `Seqs.FilterIsSubsequence` | client/src/App.js:19-21 | a filtered list is an order-preserving subsequence of its input |
| `Seqs.FilterCount` | client/src/App.js:19-21 | each value occurs in the filtered list as often as in the input if it passes, otherwise not at all |
| `Seqs.FilterPartition` | client/src/App.js:19-21 | filtering by a predicate and by its negation splits the input's multiset, and the lengths add up |
| `Seqs.FilterFuse` | client/src/App.js:87-90 | filtering by `q` and then by `p` equals filtering once by `p && q` |
| `Seqs.FilterCommute` | client/src/App.js:87-90 | two filters can be applied in either order |
| `Seqs.FilterIdempotent` | client/src/App.js:19-21 | filtering twice by the same predicate equals filtering once |
| `Seqs.FilterKeepsAll` | client/src/App.js:22-23 | a filter every element passes returns the input unchanged |
| `Text.Trim` | client/src/App.js:43 | `trim()` is a slice of the input with only ECMAScript whitespace outside it; it is empty exactly when every character is whitespace, and otherwise starts and ends with non-whitespace |
| `Text.TrimIsSlice` | client/src/App.js:43 | stripping leading then trailing whitespace leaves a slice with only whitespace around it, empty exactly when the input is blank |
| `Text.ToLower` | client/src/App.js:88 | `toLowerCase()` keeps the length and lowers each ASCII capital, leaving other characters as they are |
| `Text.ToLowerIdempotent` | client/src/App.js:88 | lowering an already lowered string changes nothing |
| `Text.Includes` | client/src/App.js:88 | the empty needle is always included; an included needle is no longer than the haystack |
| `Text.IncludesIff` | client/src/App.js:88 | `includes` is true exactly when the needle occurs at some position of the haystack |
| `App.ApplyFilter` | client/src/App.js:17-25 | the result is no longer than the input, and every movie in it is in the input and passes the filter |
| `App.ApplyFilterExact` | client/src/App.js:17-24 | `applyFilter` is an order-preserving subsequence of its input, keeping every admitted movie with its multiplicity and dropping every other |
| `App.ApplyFilterOther` | client/src/App.js:22-23 | any filter other than `watched` and `unwatched` returns the list unchanged |
| `App.ApplyFilterUnchangedIff` | client/src/App.js:17-25 | `applyFilter` returns its input exactly when the filter admits every movie in it |
| `App.WatchedPartition` | client/src/App.js:17-21 | `watched` and `unwatched` are disjoint, cover the list, sum to its multiset and their counts add to its length |
| `App.ApplyFilterIdempotent` | client/src/App.js:17-24 | applying a filter twice equals applying it once |
| `App.SearchMatches` | client/src/App.js:87-89 | every match is a movie of the given list whose lowercased title includes the lowercased query |
| `App.SearchResults` | client/src/App.js:87-90 | every displayed search result is in the full list, matches the query and passes the active filter |
| `App.SearchResultsExact` | client/src/App.js:85-91 | a search shows exactly the movies of the full list that match and pass, in list order and with their multiplicities |
| `App.SearchCommutesWithFilter` | client/src/App.js:87-90 | filtering the matches equals searching the filtered list |
| `App.EmptySearchShowsFilteredList` | client/src/App.js:87-90 | the empty query matches every title, so an empty search shows the filtered full list |
| `App.SearchIgnoresQueryCase` | client/src/App.js:87-89 | searching for the lowercased query gives the same matches as the query itself |
| `App.SelectionAfterDelete` | client/src/App.js:63 | after a delete of `id` the panel is empty exactly when it was empty or showed `id`; otherwise it is unchanged |
| `App.DeleteSelectionIdempotent` | client/src/App.js:63 | a second delete of the same id leaves the panel as the first did |
| `App.SelectionAfterToggle` | client/src/App.js:75-79 | after a toggle of `id` a panel showing `id` has only `watched` negated; any other panel and every other field are kept |
| `App.ToggleSelectionTwice` | client/src/App.js:75-79 | two toggles of the same id restore the panel |
| `App.MovieList.constructor` | client/src/App.js:5-11 | initial state: empty lists and buffers, filter `all`, no selection, loading on; the invariant holds |
| `App.MovieList.LoadSucceeded` | client/src/App.js:30-34 | `movies` becomes the data, the display becomes `applyFilter(data, filter)`, loading goes off, any search is dropped, nothing else changes |
| `App.MovieList.LoadFailed` | client/src/App.js:35-38 | only `loading` changes, to false |
| `App.MovieList.TitleEdited` | client/src/App.js:143 | only the title buffer changes, to the typed value |
| `App.MovieList.QueryEdited` | client/src/App.js:157 | only the query changes, to the typed value |
| `App.MovieList.SubmitAdd` | client/src/App.js:41-49 | no request and no state change exactly when the title is blank; otherwise a POST of the untrimmed title |
| `App.MovieList.AddSucceeded` | client/src/App.js:51-54 | the title buffer becomes `""`, a reload is started, nothing else changes |
| `App.MovieList.DeleteClicked` | client/src/App.js:58-61 | a delete click starts `DELETE /movies/:id` for the clicked id and changes no state |
| `App.MovieList.ToggleClicked` | client/src/App.js:69-72 | a toggle click starts `PATCH /movies/:id/toggle` for the clicked id and changes no state |
| `App.MovieList.DeleteSucceeded` | client/src/App.js:62-65 | the selection becomes `SelectionAfterDelete` of the old one, a reload is started, nothing else changes |
| `App.MovieList.ToggleSucceeded` | client/src/App.js:73-81 | the selection becomes `SelectionAfterToggle` of the old one, a reload is started, nothing else changes |
| `App.MovieList.SearchSubmitted` | client/src/App.js:85-91 | the display becomes the filtered matches from the full list; `movies`, `filter`, the selection and the rest are unchanged |
| `App.MovieList.FilterChanged` | client/src/App.js:93-96 | the filter becomes the new one and the display becomes `applyFilter(movies, f)`, whatever the query; the search is dropped |
| `App.MovieList.Select` | client/src/App.js:184 | the clicked movie opens in the panel; nothing else changes |
| `App.MovieList.Close` | client/src/App.js:239 | the panel becomes empty; nothing else changes |

## Left out

- The server (`server/index.js`) is not part of this model. Each of its routes is a single SQL statement run by Postgres against a schema that is not in the repository.
- `fetch`, promises and the order in which responses arrive are left out. Each success branch is one atomic transition that receives the server's answer. Racing actions are not modelled, and neither is the stale `filter` a pending `fetchMovies` closure may capture. The model applies the filter current when the answer arrives.
- The `.catch` branches of add, delete and toggle only log, so they are no-ops and are not modelled.
- The delete and toggle callbacks test the `selectedMovie` captured when the button was clicked (App.js:63, 75). Toggle's updater then flips whatever panel is open when the answer arrives (App.js:76). So if the user opens another movie before the answer, the source flips that other movie's flag in the panel. The model reads one selection at the moment of the answer and does not capture this.
- `fetch` resolves on HTTP 4xx and 5xx answers too. So the add, delete and toggle success steps also run when the server answers with an error; for example, a toggle answered with a 500 still flips the open panel. The model takes the success steps as given and does not tell these answers apart.
- A non-array JSON body (such as a 500 error object) reaching `setMovies` is not modelled. A load either delivers a list or fails.
- `Text.ToLower`: lowers ASCII capitals only, not the full Unicode case mapping of `toLowerCase`, because Unicode case tables are out of scope.
- JSX rendering, styles, image URLs, the "Loading...", "No matches found." and "No description available." texts, and `console.error` logging are presentation.
- Movie fields other than `id`, `title` and `watched` are carried through without interpretation.
