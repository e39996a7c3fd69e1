/** The in-memory catalog of the movie recommendation service: the movie
    list, the title-keyed director records, the genre list derived once at
    start-up, and the two operations over them that the request handlers
    perform (the genre query with its director join, and the append). */
module MovieCatalog {
  import opened JsValues
  import opened OrderedDedup

  /** A catalog entry. The add operation stores the request body as it
      arrives, so every field is whatever JSON value the client sent. */
  datatype Movie = Movie(title: JsValue, genre: JsValue, year: JsValue)

  /** A director record; `age` is a number for the stored records and the
      string "Unknown" for the placeholder. */
  datatype Director = Director(name: string, age: JsValue, awards: seq<string>)

  /** A movie as the list endpoint returns it: its own fields plus `director`. */
  datatype MovieWithDirector =
    MovieWithDirector(title: JsValue, genre: JsValue, year: JsValue, director: Director)
  {
    function AsMovie(): Movie {
      Movie(title, genre, year)
    }
  }

  /** The server's state. `genres` is computed from the seed movies when the
      process starts and is never recomputed. */
  datatype Catalog = Catalog(movies: seq<Movie>, directors: map<string, Director>, genres: seq<JsValue>)

  /** The placeholder returned for a title that has no director record. */
  const UnknownDirector: Director := Director("Unknown", Str("Unknown"), ["Unknown"])

  /** The genre of every movie, in catalog order. */
  function GenreColumn(movies: seq<Movie>): seq<JsValue> {
    seq(|movies|, i requires 0 <= i < |movies| => movies[i].genre)
  }

  /** The distinct genres of `movies` in order of first appearance. */
  function GenresOf(movies: seq<Movie>): seq<JsValue> {
    Dedup(GenreColumn(movies))
  }

  /** A genre list with no repeats, holding exactly the genres that occur. */
  lemma GenresOfDistinctAndComplete(movies: seq<Movie>)
    ensures NoDuplicates(GenresOf(movies))
    ensures forall g :: g in GenresOf(movies) <==> exists i :: 0 <= i < |movies| && movies[i].genre == g
  {
    var col := GenreColumn(movies);
    forall g | g in GenresOf(movies)
      ensures exists i :: 0 <= i < |movies| && movies[i].genre == g
    {
      var i := IndexOf(col, g);
      assert movies[i].genre == g;
    }
    forall g | exists i :: 0 <= i < |movies| && movies[i].genre == g
      ensures g in GenresOf(movies)
    {
      var i :| 0 <= i < |movies| && movies[i].genre == g;
      assert col[i] == g;
    }
  }

  /** The director record for a title, falling back to the placeholder. The
      lookup uses the title's string form as the property key, and every
      stored record is an object and so truthy: the placeholder is used
      exactly when the key is missing. */
  function DirectorOf(directors: map<string, Director>, title: JsValue): Director {
    var key := ToJsString(title);
    if key in directors then directors[key] else UnknownDirector
  }

  /** When no stored record equals the placeholder, a title gets the
      placeholder if and only if it has no record. */
  lemma PlaceholderIffNoRecord(directors: map<string, Director>, title: JsValue)
    requires UnknownDirector !in directors.Values
    ensures DirectorOf(directors, title) == UnknownDirector <==> ToJsString(title) !in directors
    ensures ToJsString(title) in directors ==> DirectorOf(directors, title) == directors[ToJsString(title)]
  {
  }

  /** A movie's own fields with its director attached. */
  function WithDirector(directors: map<string, Director>, m: Movie): MovieWithDirector {
    MovieWithDirector(m.title, m.genre, m.year, DirectorOf(directors, m.title))
  }

  /** Every movie, in order, with its director attached. */
  function Join(directors: map<string, Director>, movies: seq<Movie>): seq<MovieWithDirector> {
    seq(|movies|, i requires 0 <= i < |movies| => WithDirector(directors, movies[i]))
  }

  /** Dropping the `director` field from every joined entry gives back the
      movies, in the same order. */
  function Unjoin(entries: seq<MovieWithDirector>): (r: seq<Movie>)
    ensures |r| == |entries|
  {
    seq(|entries|, i requires 0 <= i < |entries| => entries[i].AsMovie())
  }

  /** The join keeps every movie, in order, with its fields unchanged, and
      attaches to each the record its title looks up. */
  lemma JoinKeepsMoviesAndAttachesDirectors(directors: map<string, Director>, movies: seq<Movie>)
    ensures Unjoin(Join(directors, movies)) == movies
    ensures forall i :: 0 <= i < |movies| ==>
              Join(directors, movies)[i].director == DirectorOf(directors, movies[i].title)
  {
  }

  /** The movies whose genre is strictly equal to `genre`. Strict equality of two
      primitives is equality of the modelled values: no type coercion, and
      strings compare case-sensitively. */
  function MoviesOfGenre(movies: seq<Movie>, genre: JsValue): (r: seq<Movie>)
    ensures forall m :: m in r ==> m in movies && m.genre == genre
    ensures forall m :: m in movies && m.genre == genre ==> m in r
    ensures |r| <= |movies|
  {
    if |movies| == 0 then []
    else if movies[0].genre == genre then [movies[0]] + MoviesOfGenre(movies[1..], genre)
    else MoviesOfGenre(movies[1..], genre)
  }

  /** Filtering distributes over concatenation, so the result keeps the
      catalog order; together with the one-element case this determines the
      filter completely. */
  lemma {:induction false} MoviesOfGenreAppend(a: seq<Movie>, b: seq<Movie>, genre: JsValue)
    ensures MoviesOfGenre(a + b, genre) == MoviesOfGenre(a, genre) + MoviesOfGenre(b, genre)
  {
    if |a| > 0 {
      assert (a + b)[1..] == a[1..] + b;
      MoviesOfGenreAppend(a[1..], b, genre);
    } else {
      assert a + b == b;
    }
  }

  /** When every movie has the genre, the filter keeps them all; when none
      has it, the filter is empty. */
  lemma {:induction false} MoviesOfGenreExtremes(movies: seq<Movie>, genre: JsValue)
    ensures (forall i :: 0 <= i < |movies| ==> movies[i].genre == genre) ==> MoviesOfGenre(movies, genre) == movies
    ensures MoviesOfGenre(movies, genre) == [] <==> forall i :: 0 <= i < |movies| ==> movies[i].genre != genre
  {
    if |movies| > 0 {
      MoviesOfGenreExtremes(movies[1..], genre);
      assert movies == [movies[0]] + movies[1..];
      if forall i :: 0 <= i < |movies| ==> movies[i].genre == genre {
        assert forall i :: 0 <= i < |movies[1..]| ==> movies[1..][i].genre == genre by {
          forall i | 0 <= i < |movies[1..]| ensures movies[1..][i].genre == genre {
            assert movies[1..][i] == movies[i + 1];
          }
        }
      }
      if forall i :: 0 <= i < |movies| ==> movies[i].genre != genre {
        assert movies[0].genre != genre;
        assert forall i :: 0 <= i < |movies[1..]| ==> movies[1..][i].genre != genre by {
          forall i | 0 <= i < |movies[1..]| ensures movies[1..][i].genre != genre {
            assert movies[1..][i] == movies[i + 1];
          }
        }
      }
    }
  }

  /** What `GET /movies` computes before it is turned into a response. */
  datatype QueryResult =
    | Found(entries: seq<MovieWithDirector>)
    | NoneForGenre(genre: JsValue)

  /** The movie query: with a truthy `genre`, the matching movies joined with
      their directors, or "none for this genre" when nothing matches; with an
      absent or falsy `genre`, every movie joined with its director. */
  function QueryMovies(c: Catalog, genre: JsValue): (r: QueryResult)
    ensures !Truthy(genre) ==> r.Found? && Unjoin(r.entries) == c.movies
    ensures Truthy(genre) ==>
              (r.NoneForGenre? <==> forall i :: 0 <= i < |c.movies| ==> c.movies[i].genre != genre)
    ensures Truthy(genre) && r.Found? ==> Unjoin(r.entries) == MoviesOfGenre(c.movies, genre)
    ensures r.NoneForGenre? ==> r.genre == genre
    ensures r.Found? ==> forall i :: 0 <= i < |r.entries| ==>
              r.entries[i].director == DirectorOf(c.directors, r.entries[i].title)
  {
    if Truthy(genre) then
      var matching := MoviesOfGenre(c.movies, genre);
      MoviesOfGenreExtremes(c.movies, genre);
      if |matching| == 0 then NoneForGenre(genre)
      else
        JoinKeepsMoviesAndAttachesDirectors(c.directors, matching);
        Found(Join(c.directors, matching))
    else
      JoinKeepsMoviesAndAttachesDirectors(c.directors, c.movies);
      Found(Join(c.directors, c.movies))
  }

  /** The JSON body of an add request; a missing field is `Undefined`. */
  datatype NewMovie = NewMovie(title: JsValue, genre: JsValue, year: JsValue)

  /** The outcome of an add request and the catalog after it. */
  datatype Addition = Addition(accepted: bool, next: Catalog)

  /** Appends the body as a movie when `title`, `genre` and `year` are all
      truthy; otherwise rejects it. The genre list is not recomputed. */
  function AddMovie(c: Catalog, body: NewMovie): (r: Addition)
    ensures r.accepted <==> Truthy(body.title) && Truthy(body.genre) && Truthy(body.year)
    ensures r.accepted ==>
              && |r.next.movies| == |c.movies| + 1
              && r.next.movies[..|c.movies|] == c.movies
              && r.next.movies[|c.movies|] == Movie(body.title, body.genre, body.year)
    ensures r.next.directors == c.directors && r.next.genres == c.genres
    ensures !r.accepted ==> r.next == c
  {
    if Truthy(body.title) && Truthy(body.genre) && Truthy(body.year) then
      Addition(true, c.(movies := c.movies + [Movie(body.title, body.genre, body.year)]))
    else
      Addition(false, c)
  }

  /** After an accepted add, a query for the new movie's genre returns the
      previous matches followed by the new movie. */
  lemma AddedMovieJoinsItsGenre(c: Catalog, body: NewMovie)
    requires AddMovie(c, body).accepted
    ensures MoviesOfGenre(AddMovie(c, body).next.movies, body.genre)
            == MoviesOfGenre(c.movies, body.genre) + [Movie(body.title, body.genre, body.year)]
  {
    var m := Movie(body.title, body.genre, body.year);
    MoviesOfGenreAppend(c.movies, [m], body.genre);
    assert [m][1..] == [];
  }
}
