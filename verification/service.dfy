/** The service over a whole process lifetime: requests handled one at a time
    from the seed catalog, and what holds of every catalog reached that way. */
module Service {
  import opened JsValues
  import opened MovieCatalog
  import opened Seed
  import opened Router

  /** The catalog after handling `reqs` in order, starting from `c`. */
  function Run(c: Catalog, reqs: seq<Request>): Catalog
    decreases |reqs|
  {
    if |reqs| == 0 then c else Run(Handle(c, reqs[0]).next, reqs[1..])
  }

  /** Every movie has a truthy title, genre and year. */
  predicate AllComplete(movies: seq<Movie>) {
    forall i :: 0 <= i < |movies| ==>
      Truthy(movies[i].title) && Truthy(movies[i].genre) && Truthy(movies[i].year)
  }

  /** Handling requests never changes the directors or the genre list, never
      removes or alters a movie, and only ever appends complete movies. */
  lemma {:induction false} RunKeepsCatalogInvariants(c: Catalog, reqs: seq<Request>)
    requires AllComplete(c.movies)
    decreases |reqs|
    ensures Run(c, reqs).directors == c.directors
    ensures Run(c, reqs).genres == c.genres
    ensures |c.movies| <= |Run(c, reqs).movies| && Run(c, reqs).movies[..|c.movies|] == c.movies
    ensures AllComplete(Run(c, reqs).movies)
  {
    if |reqs| > 0 {
      var o := Handle(c, reqs[0]);
      if o.next != c {
        AddMovieEndpoint(c, reqs[0]);
        assert o.next.movies[..|c.movies|] == c.movies;
      }
      RunKeepsCatalogInvariants(o.next, reqs[1..]);
      var final := Run(o.next, reqs[1..]);
      assert final.movies[..|c.movies|] == final.movies[..|o.next.movies|][..|c.movies|];
    }
  }

  lemma SeedIsComplete()
    ensures AllComplete(SeedMovies)
  {
  }

  /** However many requests a server has handled, `/genres` still answers 200
      with Action, Comedy and Drama: the list is never recomputed, so movies
      added later do not appear in it, and it is never empty. */
  lemma GenresNeverChange(reqs: seq<Request>, req: Request)
    requires RouteOf(req) == GenresRoute
    ensures Handle(Run(InitialCatalog(), reqs), req).response == Response(200, Json, GenreArray(SeedGenres))
  {
    SeedIsComplete();
    RunKeepsCatalogInvariants(InitialCatalog(), reqs);
    SeedGenresAreActionComedyDrama();
    GenresEndpoint(Run(InitialCatalog(), reqs), req);
  }

  /** In every catalog the server reaches, the seed movies come first and
      keep their director records. */
  lemma SeedMoviesKeepTheirDirectors(reqs: seq<Request>)
    ensures var c := Run(InitialCatalog(), reqs);
            && |SeedMovies| <= |c.movies| && c.movies[..|SeedMovies|] == SeedMovies
            && forall i :: 0 <= i < |SeedMovies| ==>
                 && DirectorOf(c.directors, c.movies[i].title) == DirectorOf(SeedDirectors, SeedMovies[i].title)
                 && DirectorOf(c.directors, c.movies[i].title) != UnknownDirector
  {
    SeedIsComplete();
    RunKeepsCatalogInvariants(InitialCatalog(), reqs);
    SeedMoviesHaveDirectors();
    var c := Run(InitialCatalog(), reqs);
    forall i | 0 <= i < |SeedMovies|
      ensures c.movies[i] == SeedMovies[i]
    {
      assert c.movies[..|SeedMovies|][i] == c.movies[i];
    }
  }

  /** On a fresh server a query for Action (`GET /movies?genre=Action`)
      sends the four Action movies, each with its director. */
  lemma FreshActionQuery(req: Request)
    requires RouteOf(req) == MoviesRoute && req.genre == Str("Action")
    ensures Handle(InitialCatalog(), req).response == Response(200, Json, MovieArray(Join(SeedDirectors, ActionSeed)))
  {
    SeedMoviesOfGenre(req.genre);
  }

  /** On a fresh server a query for a genre no seed movie has (`Horror`, or
      `action` in lower case: the match is case-sensitive) answers 404 with
      a message naming that genre. */
  lemma FreshUnknownGenreQuery(req: Request)
    requires RouteOf(req) == MoviesRoute && Truthy(req.genre) && req.genre !in SeedGenres
    ensures Handle(InitialCatalog(), req).response
            == Response(404, Html, Text(NoMoviesPrefix + ToJsString(req.genre)))
  {
    SeedMoviesOfGenre(req.genre);
    MoviesOfGenreExtremes(SeedMovies, req.genre);
    MoviesEndpointFiltered(InitialCatalog(), req);
  }

  /** Adding a complete Action movie whose title has no director record
      answers 201, after which the Action query sends five movies, the new
      one last with the placeholder director. */
  lemma AddThenQuery(add: Request, query: Request)
    requires RouteOf(add) == AddMovieRoute
    requires Truthy(add.body.title) && add.body.genre == Str("Action") && Truthy(add.body.year)
    requires ToJsString(add.body.title) !in SeedDirectors
    requires RouteOf(query) == MoviesRoute && query.genre == Str("Action")
    ensures var o := Handle(InitialCatalog(), add);
            var r := Handle(o.next, query).response;
            && o.response.status == 201
            && r.status == 200 && r.body.MovieArray? && |r.body.entries| == 5
            && r.body.entries[4] == MovieWithDirector(add.body.title, add.body.genre, add.body.year, UnknownDirector)
  {
    var c := InitialCatalog();
    var m := Movie(add.body.title, add.body.genre, add.body.year);
    AddMovieEndpoint(c, add);
    var next := Handle(c, add).next;
    AddedMovieJoinsItsGenre(c, add.body);
    SeedMoviesOfGenre(query.genre);
    MoviesEndpointFiltered(next, query);
    var entries := Handle(next, query).response.body.entries;
    assert Unjoin(entries) == ActionSeed + [m];
    assert entries[4] == WithDirector(SeedDirectors, m);
  }

  /** An add whose genre is falsy answers 400 and leaves the fresh
      catalog as it was. */
  lemma IncompleteAddChangesNothing(add: Request)
    requires RouteOf(add) == AddMovieRoute && !Truthy(add.body.genre)
    ensures Handle(InitialCatalog(), add) == Outcome(Response(400, Html, Text(InvalidMovieMessage)), InitialCatalog())
  {
  }
}
