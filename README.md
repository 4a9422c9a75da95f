# Movies view state, modelled in Dafny

This project models the `Movies` component of the vidly catalog
(src/components/movies.jsx). The component keeps five state fields:

- `movies`, the working list;
- `genres`, the genre list with a synthetic "All Genres" entry whose `_id` is empty;
- `pageSize`;
- `currentPage`;
- `selectedGenre`.

Its handlers update these fields: delete a movie, toggle a movie's `liked`, change the page, select a genre, and sort, which does nothing.
At render time the component computes the list to show. It first stops at a "no movies" message when the working list is empty. Otherwise it filters by the selected genre, counts the result, and hands it to `paginate`.

Files:

- `seq_filter.dfy` (module `SeqFilter`): the order-preserving filter used at lines 24 and 63 (`Array.prototype.filter`). It comes with lemmas about membership, length, order (subsequence and distribution over concatenation), idempotence and commutation.
- `catalog.dfy` (module `Catalog`): the `Movie` and `Genre` values. It holds the list operations behind the handlers: delete by id, the first index of a movie, and the flip of `liked` at one position. It also holds the render filter and lemmas about them.
- `movies.dfy` (module `MoviesComponent`): the class `Movies`. Its fields are the component state, it has one method per handler, and its `Render` function is the data part of `render`.

Each handler is one atomic update of the fields it names in `setState`. Every handler method states its whole new state: the fields it sets, and that the others are unchanged. `HandleLike` works as the source does. It copies the list into a fresh array, overwrites the element at the found index with a copy whose `liked` is flipped, and stores the array's contents back.

## Model

| member | source | states |
|---|---|---|
| `MoviesComponent.Movies.constructor` | src/components/movies.jsx:11-16 | the initial state: empty movie and genre lists, page size 4, page 1, no genre selected |
| `MoviesComponent.Movies.ComponentDidMount` | src/components/movies.jsx:18-21 | movies become the fetched list; genres become the fetched genres with the "All Genres" entry (empty id) in front: one longer, rest in order; other fields unchanged |
| `MoviesComponent.Movies.HandleDelete` | src/components/movies.jsx:23-26 | the working list becomes the movies whose id differs from the deleted movie's; no survivor has that id; no other field changes (the page is not reset) |
| `MoviesComponent.Movies.HandleLike` | src/components/movies.jsx:28-34 | the list keeps its length; the movie at the first index of the given movie has `liked` flipped; every other element is identical; no other field changes |
| `MoviesComponent.Movies.HandlePageChange` | src/components/movies.jsx:36-38 | `currentPage` becomes exactly the given page, without clamping; no other field changes |
| `MoviesComponent.Movies.HandleGenreSelect` | src/components/movies.jsx:40-42 | `selectedGenre` becomes the genre and `currentPage` becomes 1; movies, genres and page size unchanged |
| `MoviesComponent.Movies.HandleSort` | src/components/movies.jsx:44 | no state changes |
| `MoviesComponent.Movies.Render` | src/components/movies.jsx:46-67 | "no movies" exactly when the working list is empty; otherwise the filtered list, its length as the count (at most the total, and computed from movies and selected genre only, so independent of `currentPage`), and the page that `paginate` returns for the filtered list, current page and page size |
| `SeqFilter.Keep` | src/components/movies.jsx:63 | the filter's result is no longer than its input; an element is in it exactly when it is in the input and passes the test; every element passes |
| `SeqFilter.KeepIsSubsequence` | src/components/movies.jsx:63 | the filter only deletes: the result is a subsequence of the input, in the same order |
| `SeqFilter.KeepAppend` | src/components/movies.jsx:63 | filtering a concatenation is the concatenation of the filtered parts, so no element moves past another |
| `SeqFilter.KeepWhole` | src/components/movies.jsx:63 | the filter keeps the full length exactly when every element passes, and then returns the input unchanged |
| `SeqFilter.KeepIdempotent` | src/components/movies.jsx:63 | filtering a filtered list again with the same test changes nothing |
| `SeqFilter.KeepCommutes` | src/components/movies.jsx:63 | two filters give the same result in either order |
| `Catalog.WithoutId` | src/components/movies.jsx:24 | after a delete, a movie remains exactly when it was there and its id differs from the deleted one; the list does not grow |
| `Catalog.DeleteKeepsOrder` | src/components/movies.jsx:24 | survivors of a delete keep their relative order |
| `Catalog.DeleteShrinksIffPresent` | src/components/movies.jsx:24 | the list is unchanged when the id is absent, and gets shorter exactly when the id is present |
| `Catalog.DeleteIdempotent` | src/components/movies.jsx:24 | deleting the same id twice is the same as deleting it once |
| `Catalog.KeepUniqueIds` | src/components/movies.jsx:24 | filtering a list whose ids are unique leaves a list whose ids are unique |
| `Catalog.DeleteRemovesOne` | src/components/movies.jsx:24 | with unique ids, deleting a movie of the list removes exactly one element |
| `Catalog.FirstIndex` | src/components/movies.jsx:30 | the index found holds the given movie, and no earlier element equals it |
| `Catalog.FlipLiked` | src/components/movies.jsx:31-32 | same length; only the element at the index changes; it keeps its id and genre and its `liked` is flipped |
| `Catalog.FlipLikedTwice` | src/components/movies.jsx:31-32 | flipping the same position twice restores the list |
| `Catalog.FlipLikedUniqueIds` | src/components/movies.jsx:31-32 | liking keeps ids unique |
| `Catalog.LikeTwiceRestores` | src/components/movies.jsx:28-34 | with unique ids, liking a movie and then liking the re-rendered copy of it restores the original list |
| `Catalog.GenreFilter` | src/components/movies.jsx:61-64 | with a selected genre of non-empty id, a movie is shown exactly when it is in the list and has that genre id; otherwise the whole list is shown; never longer than the list |
| `Catalog.GenreFilterAppend` | src/components/movies.jsx:61-64 | filtering a concatenation of two lists gives the two filtered parts, concatenated, so every copy of a movie stays in its place and order |
| `Catalog.GenreFilterKeepsOrder` | src/components/movies.jsx:61-64 | the filtered list keeps the working list's order |
| `Catalog.DeleteDecrementsCount` | src/components/movies.jsx:79 | with unique ids, deleting a movie that is shown under the selected genre lowers the displayed count by exactly one |

## Left out

- The JSX markup and the child components `ListGroup`, `MoviesTable` and `Pagination` (lines 69-94) are presentation only.
- `paginate` (lines 6 and 67): its file is not part of this model. `Render` takes it as a function parameter and claims nothing about the slice it returns.
- `getMovies` and `getGenres` (lines 3-4 and 19-20): the fake services are not part of this model. Their results are the parameters of `ComponentDidMount`.
- React's `setState` merge and batching: each handler is modelled as one atomic update of its fields.
- MoviesComponent.Movies.HandleLike: `indexOf` compares references, and the model compares movie values instead. Its precondition is that the movie is in the list. When the movie is missing, `indexOf` gives -1 and the source writes a stray `-1` property onto the array copy. That is not list behaviour, so it is not modelled.
- Search, sort order and title prefix matching are not in the component's code: `handleSort` is empty and nothing reads a search query. They are not modelled.
- Unknown ids: deleting an id the list does not hold leaves the list as it was (`Catalog.DeleteShrinksIffPresent`); liking a movie that is not in the list is excluded by `HandleLike`'s precondition (see the line above on `indexOf`).
- `Movie` holds only the fields the logic reads (`_id`, the genre's `_id`, `liked`). Titles and the other display fields are left out.
- src/common/input.jsx and src/common/like.jsx are markup. The only choice in like.jsx is the icon class.
