# Movie store model

A Dafny model of the movie state container of the cinematch web client (the
pinia store `movie` in `src/store/movieStore.ts`). The store holds the list of
movie records shown on screen, the movie whose details are open, a page cursor,
a loading flag, a search-mode flag with its query text, and a card-size
preference. Its actions update these fields in place.

The model has two modules:

- `MovieList` (`movie_list.dfy`) holds the pure step of `appendMovies`: the set
  of ids already in the list (`IdsOf`), the filter that keeps the incoming
  records whose id is not in that set (`FilterNew`), and the list that results
  from pushing the survivors (`Appended`). Lemmas about these functions state
  what an append does: it keeps the old list as a prefix, it adds the filtered
  payload in payload order, it leaves the list alone for an empty page, it
  accumulates the union of the ids, and it keeps ids distinct when the payload's
  ids are distinct.
- `Store` (`movie_store.dfy`) holds the store itself as the class
  `MovieStore`, one field per field of the store. Each action is a method that
  `modifies this` and states the whole new state as an update of the old one
  through the snapshot `State()`, so each setter visibly assigns only its own
  field. `AppendMovies` is specified by `Appended` and carries the append
  properties in its own postconditions.

A movie record is `Movie(id, payload)`: the integer `id` the store keys on and
an opaque payload string standing for the provider's untyped fields, which the
store never reads. `null` for the selected movie is `None`.

Two behaviours of the code are modelled as written:

- The id set is built once, before the push. Two records of one payload that
  share an id the list lacks are both pushed, so uniqueness of ids is preserved
  only when each payload has distinct ids (`PayloadDuplicatesKept`,
  `AppendKeepsDistinct`). A design description of this store calls uniqueness
  an invariant of every operation; the code does not enforce it, and the model
  follows the code.
- `setSearchMode(false)` called without a query sets the query to `""`, because
  the parameter defaults to the empty string. It does not keep the old query
  (`Store.LeaveSearchClearsQuery`). A design description of this store expects
  the old query to be kept; the model follows the code.

## Model

| member | source | states |
|---|---|---|
| `MovieList.IdsOf` | src/store/movieStore.ts:18 | the id set holds the id of every record of the list and nothing else |
| `MovieList.FilterNew` | src/store/movieStore.ts:19 | a record is kept exactly when it is in the payload and its id is not among the existing ids; no kept id is an existing id; the result is no longer than the payload |
| `MovieList.FilterConcat` | src/store/movieStore.ts:19 | filtering a concatenated payload is the concatenation of the filtered parts, so the kept records stay in payload order |
| `MovieList.FilterSingleton` | src/store/movieStore.ts:19 | a one-record payload is kept exactly when its id is new |
| `MovieList.FilterKeepsAllNew` | src/store/movieStore.ts:18-19 | when no id of the payload is an existing id, the whole payload survives, duplicates included |
| `MovieList.FilterDropsAllKnown` | src/store/movieStore.ts:18-19 | when every id of the payload is an existing id, nothing survives |
| `MovieList.FilterDistinct` | src/store/movieStore.ts:19 | filtering a payload with distinct ids yields records with distinct ids |
| `MovieList.Appended` | src/store/movieStore.ts:17-21 | the old list is an unchanged prefix of the result, and the added suffix holds exactly the payload records whose id is not in the old list |
| `MovieList.AppendEmpty` | src/store/movieStore.ts:17-21 | appending an empty payload leaves the list unchanged |
| `MovieList.AppendedIds` | src/store/movieStore.ts:17-21 | the ids after an append are the union of the old list's ids and the payload's ids |
| `MovieList.AppendKeepsDistinct` | src/store/movieStore.ts:17-21 | an old list and a payload that both have distinct ids produce a list with distinct ids |
| `MovieList.AppendSameIsIdentity` | src/store/movieStore.ts:14-21 | appending the list that is already there adds nothing |
| `MovieList.PayloadDuplicatesKept` | src/store/movieStore.ts:18-20 | two payload records sharing an id the list lacks are both pushed, and the list no longer has distinct ids |
| `MovieList.AppendTwice` | src/store/movieStore.ts:17-21 | two appends in a row accumulate the union of all three id sets, with distinct ids when the list and each payload have distinct ids |
| `MovieList.AppendDisjointPagesInOrder` | src/store/movieStore.ts:17-21 | from an empty list, two pages with no id in common end up as the first page followed by the second |
| `MovieList.AppendOverlapExample` | src/store/movieStore.ts:17-21 | the list [1, 2] with the page [2, 3] appended becomes [1, 2, 3], keeping the record with id 2 that was already there |
| `Store.MovieStore.constructor` | src/store/movieStore.ts:4-12 | a new store has no movies, no selected movie, page 1, loading and search mode off, an empty query and large cards |
| `Store.MovieStore.SetMovies` | src/store/movieStore.ts:14-16 | the list becomes the payload as given, without deduplication; every other field is unchanged |
| `Store.MovieStore.AppendMovies` | src/store/movieStore.ts:17-21 | the list becomes `Appended(old list, payload)`: old list kept as prefix, suffix equal to the payload filtered against the old ids, ids equal to the union, distinct ids preserved for a payload with distinct ids, an empty payload changes nothing; every other field is unchanged |
| `Store.MovieStore.SetSelectedMovie` | src/store/movieStore.ts:22-24 | the selected movie is replaced wholesale; every other field is unchanged |
| `Store.MovieStore.SetPage` | src/store/movieStore.ts:25-27 | the page cursor becomes the given page with no bounds check; every other field is unchanged |
| `Store.MovieStore.SetLoading` | src/store/movieStore.ts:28-30 | the loading flag becomes the given value; every other field is unchanged |
| `Store.MovieStore.SetSearchMode` | src/store/movieStore.ts:31-34 | search mode and query become the given values, the query defaulting to `""`; every other field is unchanged |
| `Store.MovieStore.SetCardSize` | src/store/movieStore.ts:35-37 | the card size becomes the given size; every other field is unchanged |
| `Store.LeaveSearchClearsQuery` | src/store/movieStore.ts:31-34 | entering search mode with a query and then leaving it without one leaves search mode off and the query empty |
| `Store.SetThenAppendSame` | src/store/movieStore.ts:14-21 | setting a list and then appending the same list leaves the store holding that list |

## Left out

- The pinia framework: store registration, reactivity and the `useMovieStore` hook. The store is an ordinary class.
- Aliasing: `setMovies` stores the caller's array itself, so a later push also changes that array for the caller. The list is modelled as a value (`seq`), which does not capture this sharing.
- Movie fields other than `id`: the provider's records are untyped; the model keeps them as an opaque payload string. The selected movie may in practice be a richer detail record; it is modelled with the same `Movie` type.
- Ids are modelled as integers. The code compares ids with JavaScript `Set` equality, which for the provider's numeric ids agrees with integer equality.
- `currentPage` is a JavaScript number; the model uses an integer, so fractional, infinite or NaN pages are not modelled.
- The TMDB request helpers in `src/composables/useMovies.ts` and `src/composables/useMovieDetail.ts`: network I/O against a remote service with a credential read from the environment, with no logic of their own beyond passing parameters.
- The route table in `src/router/index.ts`: static configuration; matching happens inside the router library.
- The order of concurrent fetch-then-append calls: it is decided by the caller's event loop, not by the store.
