/** The values the Movies component works on and the pure list operations
    behind its handlers and its render-time filter (src/components/movies.jsx). */
module Catalog {
  import opened SeqFilter

  datatype Option<T> = None | Some(value: T)

  /** A genre; the synthetic "All Genres" entry has the empty id. */
  datatype Genre = Genre(id: string, name: string)

  /** A movie record: its `_id`, the `_id` of its genre, and whether it is liked. */
  datatype Movie = Movie(id: string, genreId: string, liked: bool)

  /** The entry the component puts in front of the fetched genres. */
  const AllGenres: Genre := Genre("", "All Genres")

  /** No two movies share an `_id`. */
  predicate UniqueIds(s: seq<Movie>) {
    forall i, j :: 0 <= i < j < |s| ==> s[i].id != s[j].id
  }

  predicate HasId(s: seq<Movie>, id: string) {
    exists i :: 0 <= i < |s| && s[i].id == id
  }

  // ----- handleDelete -------------------------------------------------------

  function OtherId(id: string): Movie -> bool {
    (m: Movie) => m.id != id
  }

  /** The working list after deleting the movie with `_id` `id`. */
  function WithoutId(s: seq<Movie>, id: string): (r: seq<Movie>)
    ensures |r| <= |s|
    ensures forall m :: m in r <==> m in s && m.id != id
  {
    Keep(s, OtherId(id))
  }

  /** Survivors of a delete keep their relative order. */
  lemma {:induction false} DeleteKeepsOrder(s: seq<Movie>, id: string)
    ensures IsSubsequence(WithoutId(s, id), s)
  {
    KeepIsSubsequence(s, OtherId(id));
  }

  /** Deleting an id the list does not hold leaves the list as it was, and
      the list gets shorter exactly when the id is present. */
  lemma {:induction false} DeleteShrinksIffPresent(s: seq<Movie>, id: string)
    ensures !HasId(s, id) ==> WithoutId(s, id) == s
    ensures |WithoutId(s, id)| < |s| <==> HasId(s, id)
  {
    KeepWhole(s, OtherId(id));
  }

  /** Deleting the same movie twice is deleting it once. */
  lemma {:induction false} DeleteIdempotent(s: seq<Movie>, id: string)
    ensures WithoutId(WithoutId(s, id), id) == WithoutId(s, id)
  {
    KeepIdempotent(s, OtherId(id));
  }

  /** Any filter keeps ids unique. */
  lemma {:induction false} KeepUniqueIds(s: seq<Movie>, p: Movie -> bool)
    requires UniqueIds(s)
    ensures UniqueIds(Keep(s, p))
    decreases |s|
  {
    if s != [] {
      assert UniqueIds(s[1..]) by {
        forall i, j | 0 <= i < j < |s[1..]| ensures s[1..][i].id != s[1..][j].id {
          assert s[1..][i] == s[i + 1] && s[1..][j] == s[j + 1];
        }
      }
      KeepUniqueIds(s[1..], p);
      if p(s[0]) {
        var t := Keep(s[1..], p);
        forall j | 0 <= j < |t| ensures s[0].id != t[j].id {
          assert t[j] in s[1..];
          var k :| 0 <= k < |s[1..]| && s[1..][k] == t[j];
          assert s[1..][k] == s[k + 1];
        }
        assert Keep(s, p) == [s[0]] + t;
      }
    }
  }

  /** With unique ids, deleting a movie of the list removes exactly that one. */
  lemma {:induction false} DeleteRemovesOne(s: seq<Movie>, m: Movie)
    requires UniqueIds(s) && m in s
    ensures |WithoutId(s, m.id)| == |s| - 1
    decreases |s|
  {
    if s[0] == m {
      forall i | 0 <= i < |s[1..]| ensures s[1..][i].id != m.id {
        assert s[1..][i] == s[i + 1];
      }
      KeepWhole(s[1..], OtherId(m.id));
    } else {
      assert m in s[1..];
      assert UniqueIds(s[1..]) by {
        forall i, j | 0 <= i < j < |s[1..]| ensures s[1..][i].id != s[1..][j].id {
          assert s[1..][i] == s[i + 1] && s[1..][j] == s[j + 1];
        }
      }
      var k :| 0 <= k < |s| && s[k] == m;
      assert k != 0;
      DeleteRemovesOne(s[1..], m);
    }
  }

  // ----- handleLike ---------------------------------------------------------

  /** The position `indexOf` finds: the first element equal to `m`. */
  function FirstIndex(s: seq<Movie>, m: Movie): (i: nat)
    requires m in s
    ensures i < |s| && s[i] == m
    ensures forall j :: 0 <= j < i ==> s[j] != m
  {
    if s[0] == m then 0 else 1 + FirstIndex(s[1..], m)
  }

  /** The list with the movie at position `i` replaced by a copy whose `liked` is flipped. */
  function FlipLiked(s: seq<Movie>, i: nat): (r: seq<Movie>)
    requires i < |s|
    ensures |r| == |s|
    ensures forall j :: 0 <= j < |s| && j != i ==> r[j] == s[j]
    ensures r[i].id == s[i].id && r[i].genreId == s[i].genreId && r[i].liked != s[i].liked
  {
    s[i := s[i].(liked := !s[i].liked)]
  }

  /** Flipping the same position twice restores the list. */
  lemma FlipLikedTwice(s: seq<Movie>, i: nat)
    requires i < |s|
    ensures FlipLiked(FlipLiked(s, i), i) == s
  {
  }

  /** Liking keeps ids, so it keeps them unique. */
  lemma FlipLikedUniqueIds(s: seq<Movie>, i: nat)
    requires i < |s| && UniqueIds(s)
    ensures UniqueIds(FlipLiked(s, i))
  {
  }

  /** With unique ids, clicking like on a movie and then on the re-rendered
      copy of it restores the working list. */
  lemma LikeTwiceRestores(s: seq<Movie>, m: Movie)
    requires UniqueIds(s) && m in s
    ensures var i := FirstIndex(s, m);
            var t := FlipLiked(s, i);
            t[i] in t && FlipLiked(t, FirstIndex(t, t[i])) == s
  {
  }

  // ----- render: genre filter and count -------------------------------------

  /** The render filter applies only when a genre with a non-empty `_id` is selected. */
  predicate FiltersByGenre(selected: Option<Genre>) {
    selected.Some? && selected.value.id != ""
  }

  function InGenre(id: string): Movie -> bool {
    (m: Movie) => m.genreId == id
  }

  /** The movies shown for the selected genre: those of that genre, or all of them. */
  function GenreFilter(movies: seq<Movie>, selected: Option<Genre>): (r: seq<Movie>)
    ensures |r| <= |movies|
    ensures FiltersByGenre(selected) ==>
              forall m :: m in r <==> m in movies && m.genreId == selected.value.id
    ensures !FiltersByGenre(selected) ==> r == movies
  {
    if FiltersByGenre(selected) then Keep(movies, InGenre(selected.value.id)) else movies
  }

  /** The filtered list keeps the relative order of the working list. */
  lemma {:induction false} GenreFilterKeepsOrder(movies: seq<Movie>, selected: Option<Genre>)
    ensures IsSubsequence(GenreFilter(movies, selected), movies)
  {
    if FiltersByGenre(selected) {
      KeepIsSubsequence(movies, InGenre(selected.value.id));
    } else {
      SubsequenceReflexive(movies);
    }
  }

  /** The render filter works element by element, in order: filtering two
      lists joined together gives the two filtered parts, joined. */
  lemma {:induction false} GenreFilterAppend(a: seq<Movie>, b: seq<Movie>, selected: Option<Genre>)
    ensures GenreFilter(a + b, selected) == GenreFilter(a, selected) + GenreFilter(b, selected)
  {
    if FiltersByGenre(selected) {
      KeepAppend(a, b, InGenre(selected.value.id));
    }
  }

  /** Deleting a movie that is shown under the selected genre lowers the
      displayed count by exactly one. */
  lemma {:induction false} DeleteDecrementsCount(movies: seq<Movie>, selected: Option<Genre>, m: Movie)
    requires UniqueIds(movies) && m in GenreFilter(movies, selected)
    ensures |GenreFilter(WithoutId(movies, m.id), selected)| == |GenreFilter(movies, selected)| - 1
  {
    if FiltersByGenre(selected) {
      var g := InGenre(selected.value.id);
      KeepCommutes(movies, OtherId(m.id), g);
      KeepUniqueIds(movies, g);
      DeleteRemovesOne(Keep(movies, g), m);
    } else {
      DeleteRemovesOne(movies, m);
    }
  }
}
