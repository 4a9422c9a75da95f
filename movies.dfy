/** The `Movies` component of src/components/movies.jsx: its state, the
    handlers that update it, and the view its render computes. */
module MoviesComponent {
  import opened Catalog

  /** What render produces: the "no movies" message when the working list is
      empty, otherwise the filtered list, its length (the displayed count and
      the pagination's item count) and the page `paginate` cut from it. */
  datatype View =
    | NoMovies
    | Showing(count: nat, filtered: seq<Movie>, page: seq<Movie>)

  class Movies {
    var movies: seq<Movie>
    var genres: seq<Genre>
    var pageSize: int
    var currentPage: int
    /** Undefined until a genre is picked. */
    var selectedGenre: Option<Genre>

    /** The state initialiser. */
    constructor ()
      ensures movies == [] && genres == []
      ensures pageSize == 4 && currentPage == 1
      ensures selectedGenre == None
    {
      movies := [];
      genres := [];
      pageSize := 4;
      currentPage := 1;
      selectedGenre := None;
    }

    /** componentDidMount: `fetchedMovies` and `fetchedGenres` stand for what
        getMovies() and getGenres() return. */
    method ComponentDidMount(fetchedMovies: seq<Movie>, fetchedGenres: seq<Genre>)
      modifies this
      ensures movies == fetchedMovies
      ensures |genres| == |fetchedGenres| + 1
      ensures genres[0] == AllGenres && genres[1..] == fetchedGenres
      ensures pageSize == old(pageSize) && currentPage == old(currentPage)
      ensures selectedGenre == old(selectedGenre)
    {
      genres := [AllGenres] + fetchedGenres;
      movies := fetchedMovies;
    }

    /** handleDelete: keeps the movies whose `_id` differs from the deleted one's. */
    method HandleDelete(movie: Movie)
      modifies this
      ensures movies == WithoutId(old(movies), movie.id)
      ensures forall m :: m in movies ==> m.id != movie.id
      ensures genres == old(genres) && pageSize == old(pageSize)
      ensures currentPage == old(currentPage) && selectedGenre == old(selectedGenre)
    {
      movies := WithoutId(movies, movie.id);
    }

    /** handleLike: copies the list, replaces the movie at its index by a copy
        and flips that copy's `liked`. */
    method HandleLike(movie: Movie)
      requires movie in movies
      modifies this
      ensures movies == FlipLiked(old(movies), FirstIndex(old(movies), movie))
      ensures |movies| == |old(movies)|
      ensures genres == old(genres) && pageSize == old(pageSize)
      ensures currentPage == old(currentPage) && selectedGenre == old(selectedGenre)
    {
      var current := movies;
      var copy := new Movie[|current|](i requires 0 <= i < |current| => current[i]);
      var index := FirstIndex(current, movie);
      copy[index] := copy[index].(liked := !copy[index].liked);
      movies := copy[..];
    }

    /** handlePageChange: takes the page as given, without clamping. */
    method HandlePageChange(page: int)
      modifies this
      ensures currentPage == page
      ensures movies == old(movies) && genres == old(genres)
      ensures pageSize == old(pageSize) && selectedGenre == old(selectedGenre)
    {
      currentPage := page;
    }

    /** handleGenreSelect: selects the genre and goes back to the first page. */
    method HandleGenreSelect(genre: Genre)
      modifies this
      ensures selectedGenre == Some(genre) && currentPage == 1
      ensures movies == old(movies) && genres == old(genres) && pageSize == old(pageSize)
    {
      selectedGenre := Some(genre);
      currentPage := 1;
    }

    /** handleSort: has no body in the component. */
    method HandleSort(path: string)
      ensures unchanged(this)
    {
    }

    /** The data part of render; `paginate` stands for the utility of the same name. */
    function Render(paginate: (seq<Movie>, int, int) -> seq<Movie>): (v: View)
      reads this
      ensures v.NoMovies? <==> movies == []
      ensures v.Showing? ==>
                v.filtered == GenreFilter(movies, selectedGenre) &&
                v.count == |v.filtered| && v.count <= |movies| &&
                v.page == paginate(v.filtered, currentPage, pageSize)
    {
      if |movies| == 0 then NoMovies
      else
        var filtered := GenreFilter(movies, selectedGenre);
        Showing(|filtered|, filtered, paginate(filtered, currentPage, pageSize))
    }
  }

  /** A client of the handlers: deleting a movie shown under the selected genre
      lowers the displayed count by one and leaves the page where it was. */
  method DeleteScenario(fetched: seq<Movie>, drama: Genre, victim: Movie)
    requires UniqueIds(fetched) && drama.id != ""
    requires victim in fetched && victim.genreId == drama.id
  {
    var c := new Movies();
    c.ComponentDidMount(fetched, [drama]);
    c.HandleGenreSelect(drama);
    c.HandlePageChange(2);
    var whole := (f: seq<Movie>, page: int, size: int) => f;
    var before := c.Render(whole);
    c.HandleDelete(victim);
    DeleteDecrementsCount(fetched, Some(drama), victim);
    var after := c.Render(whole);
    assert after.Showing? ==> after.count == before.count - 1;
    assert c.currentPage == 2;
  }
}
