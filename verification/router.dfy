/** The HTTP surface of the service: which handler a request reaches, and the
    status, content type, body and next catalog each handler produces.
    Routes are tried in registration order and the first match answers. */
module Router {
  import opened JsValues
  import opened MovieCatalog

  datatype Method = Get | Head | Post | Put | Patch | Delete | Options

  /** A request as the handlers see it: the method, the URL path without its
      query string, the `genre` query parameter (`Undefined` when absent) and
      the fields of the parsed JSON body (`Undefined` when absent). */
  datatype Request = Request(verb: Method, path: string, genre: JsValue, body: NewMovie)

  /** `res.type('application/json')`, the default `text/html` that
      `res.send` gives a string, and `res.type('text/plain')`. */
  datatype ContentType = Json | Html | PlainText

  datatype Body =
    | Text(text: string)
    | GenreArray(genres: seq<JsValue>)
    | MovieArray(entries: seq<MovieWithDirector>)

  datatype Response = Response(status: int, contentType: ContentType, body: Body)

  /** The response to one request and the catalog after it. */
  datatype Outcome = Outcome(response: Response, next: Catalog)

  datatype Route = GenresRoute | MoviesRoute | AddMovieRoute | InfoRoute | CatchAll

  const NoGenresMessage := "No genres available"
  const NoMoviesPrefix := "No movies found for genre: "
  const AddedMessage := "Movie added successfully"
  const InvalidMovieMessage := "Invalid movie data"
  const WelcomeMessage := "Welcome to the Movie Recommendation Service. Choose a genre to get started!"
  const InvalidRequestMessage := "Invalid request"

  function LowerAscii(c: char): char {
    if 'A' <= c <= 'Z' then (c as int - 'A' as int + 'a' as int) as char else c
  }

  predicate SameIgnoringCase(a: string, b: string) {
    |a| == |b| && forall i :: 0 <= i < |a| ==> LowerAscii(a[i]) == LowerAscii(b[i])
  }

  /** Routing is case-insensitive and not strict, so a path matches a route
      pattern also with different letter case and with one trailing slash. */
  predicate PathMatches(path: string, pattern: string) {
    SameIgnoringCase(path, pattern) || SameIgnoringCase(path, pattern + "/")
  }

  /** A GET route also answers HEAD requests. */
  predicate ReadsLikeGet(m: Method) {
    m == Get || m == Head
  }

  function RouteOf(req: Request): Route {
    if ReadsLikeGet(req.verb) && PathMatches(req.path, "/genres") then GenresRoute
    else if ReadsLikeGet(req.verb) && PathMatches(req.path, "/movies") then MoviesRoute
    else if req.verb == Post && PathMatches(req.path, "/addMovie") then AddMovieRoute
    else if ReadsLikeGet(req.verb) && PathMatches(req.path, "/info") then InfoRoute
    else CatchAll
  }

  /** A request falls through to the catch-all exactly when it is neither a
      GET or HEAD of `/genres`, `/movies` or `/info` nor a POST of
      `/addMovie`. */
  lemma CatchAllIffUnmatched(req: Request)
    ensures RouteOf(req) == CatchAll <==>
              && !(ReadsLikeGet(req.verb) && (PathMatches(req.path, "/genres")
                                                || PathMatches(req.path, "/movies")
                                                || PathMatches(req.path, "/info")))
              && !(req.verb == Post && PathMatches(req.path, "/addMovie"))
  {
  }

  /** The four route paths, written as registered, reach their handlers. */
  lemma ClientPathsRoute(genre: JsValue, body: NewMovie)
    ensures RouteOf(Request(Get, "/genres", genre, body)) == GenresRoute
    ensures RouteOf(Request(Get, "/movies", genre, body)) == MoviesRoute
    ensures RouteOf(Request(Post, "/addMovie", genre, body)) == AddMovieRoute
    ensures RouteOf(Request(Get, "/info", genre, body)) == InfoRoute
  {
    PathVariantsRoute(Get, "/genres", genre, body);
    PathVariantsRoute(Get, "/movies", genre, body);
    PathVariantsRoute(Post, "/addMovie", genre, body);
    PathVariantsRoute(Get, "/info", genre, body);
  }

  /** Every path a route pattern matches, in any letter case and with or
      without one trailing slash, reaches that route; a GET route does so
      for HEAD as well. The four patterns differ in their second character,
      so no matching path is taken by an earlier route. */
  lemma PathVariantsRoute(verb: Method, path: string, genre: JsValue, body: NewMovie)
    ensures ReadsLikeGet(verb) && PathMatches(path, "/genres") ==>
              RouteOf(Request(verb, path, genre, body)) == GenresRoute
    ensures ReadsLikeGet(verb) && PathMatches(path, "/movies") ==>
              RouteOf(Request(verb, path, genre, body)) == MoviesRoute
    ensures verb == Post && PathMatches(path, "/addMovie") ==>
              RouteOf(Request(verb, path, genre, body)) == AddMovieRoute
    ensures ReadsLikeGet(verb) && PathMatches(path, "/info") ==>
              RouteOf(Request(verb, path, genre, body)) == InfoRoute
  {
    if PathMatches(path, "/movies") {
      assert LowerAscii(path[1]) == 'm';
    }
    if PathMatches(path, "/info") {
      assert LowerAscii(path[1]) == 'i';
    }
  }

  function GenresResponse(c: Catalog): Response {
    if |c.genres| == 0 then Response(404, Html, Text(NoGenresMessage))
    else Response(200, Json, GenreArray(c.genres))
  }

  function MoviesResponse(c: Catalog, genre: JsValue): Response {
    match QueryMovies(c, genre)
    case Found(entries) => Response(200, Json, MovieArray(entries))
    case NoneForGenre(g) => Response(404, Html, Text(NoMoviesPrefix + ToJsString(g)))
  }

  function AddMovieOutcome(c: Catalog, body: NewMovie): Outcome {
    var a := AddMovie(c, body);
    if a.accepted then Outcome(Response(201, Html, Text(AddedMessage)), a.next)
    else Outcome(Response(400, Html, Text(InvalidMovieMessage)), a.next)
  }

  /** One request handled against the catalog. Only an accepted add changes
      the catalog, and no request changes the directors or the genre list. */
  function Handle(c: Catalog, req: Request): (o: Outcome)
    ensures o.next.directors == c.directors && o.next.genres == c.genres
    ensures o.next != c ==> RouteOf(req) == AddMovieRoute && o.response.status == 201
    ensures o.response.status in {200, 201, 400, 404}
  {
    match RouteOf(req)
    case GenresRoute => Outcome(GenresResponse(c), c)
    case MoviesRoute => Outcome(MoviesResponse(c, req.genre), c)
    case AddMovieRoute => AddMovieOutcome(c, req.body)
    case InfoRoute => Outcome(Response(200, PlainText, Text(WelcomeMessage)), c)
    case CatchAll => Outcome(Response(400, Html, Text(InvalidRequestMessage)), c)
  }

  /** `/genres` answers 404 exactly when the genre list is empty, and
      otherwise sends the list itself. */
  lemma GenresEndpoint(c: Catalog, req: Request)
    requires RouteOf(req) == GenresRoute
    ensures Handle(c, req).next == c
    ensures Handle(c, req).response.status == 404 <==> |c.genres| == 0
    ensures |c.genres| == 0 ==> Handle(c, req).response == Response(404, Html, Text(NoGenresMessage))
    ensures |c.genres| > 0 ==> Handle(c, req).response == Response(200, Json, GenreArray(c.genres))
  {
  }

  /** `/movies` with an absent or falsy genre sends every movie, in catalog
      order, each with its director. */
  lemma MoviesEndpointUnfiltered(c: Catalog, req: Request)
    requires RouteOf(req) == MoviesRoute && !Truthy(req.genre)
    ensures Handle(c, req).next == c
    ensures Handle(c, req).response.status == 200
    ensures Handle(c, req).response.contentType == Json
    ensures Handle(c, req).response.body.MovieArray?
    ensures Unjoin(Handle(c, req).response.body.entries) == c.movies
    ensures forall i :: 0 <= i < |c.movies| ==>
              Handle(c, req).response.body.entries[i].director == DirectorOf(c.directors, c.movies[i].title)
  {
  }

  /** `/movies` with a truthy genre sends the movies of exactly that genre, in
      catalog order, each with its director; when there are none it answers
      404 with a message that ends in the genre asked for. */
  lemma MoviesEndpointFiltered(c: Catalog, req: Request)
    requires RouteOf(req) == MoviesRoute && Truthy(req.genre)
    ensures Handle(c, req).next == c
    ensures Handle(c, req).response.status in {200, 404}
    ensures Handle(c, req).response.status == 404 <==>
              forall i :: 0 <= i < |c.movies| ==> c.movies[i].genre != req.genre
    ensures Handle(c, req).response.status == 404 ==>
              Handle(c, req).response == Response(404, Html, Text(NoMoviesPrefix + ToJsString(req.genre)))
    ensures Handle(c, req).response.status == 200 ==>
              && Handle(c, req).response.body.MovieArray?
              && Handle(c, req).response.contentType == Json
              && Unjoin(Handle(c, req).response.body.entries) == MoviesOfGenre(c.movies, req.genre)
              && (forall i :: 0 <= i < |Handle(c, req).response.body.entries| ==>
                    Handle(c, req).response.body.entries[i].director
                    == DirectorOf(c.directors, Handle(c, req).response.body.entries[i].title))
              && forall i :: 0 <= i < |Handle(c, req).response.body.entries| ==>
                   Handle(c, req).response.body.entries[i].genre == req.genre
  {
    var r := QueryMovies(c, req.genre);
    if r.Found? {
      var entries := r.entries;
      forall i | 0 <= i < |entries|
        ensures entries[i].genre == req.genre
      {
        assert Unjoin(entries)[i] == entries[i].AsMovie();
        assert Unjoin(entries)[i] in MoviesOfGenre(c.movies, req.genre);
      }
    }
  }

  /** `/addMovie` appends the body and answers 201 when title, genre and year
      are all truthy; otherwise it answers 400 and the catalog is as before. */
  lemma AddMovieEndpoint(c: Catalog, req: Request)
    requires RouteOf(req) == AddMovieRoute
    ensures var o := Handle(c, req);
            var complete := Truthy(req.body.title) && Truthy(req.body.genre) && Truthy(req.body.year);
            && (complete ==> o.response == Response(201, Html, Text(AddedMessage))
                             && o.next.movies == c.movies + [Movie(req.body.title, req.body.genre, req.body.year)]
                             && o.next.genres == c.genres)
            && (!complete ==> o.response == Response(400, Html, Text(InvalidMovieMessage)) && o.next == c)
  {
  }

  /** `/info` always answers 200 with the welcome text. */
  lemma InfoEndpoint(c: Catalog, req: Request)
    requires RouteOf(req) == InfoRoute
    ensures Handle(c, req) == Outcome(Response(200, PlainText, Text(WelcomeMessage)), c)
  {
  }

  /** Everything else answers 400 "Invalid request" and changes nothing. */
  lemma CatchAllEndpoint(c: Catalog, req: Request)
    requires RouteOf(req) == CatchAll
    ensures Handle(c, req) == Outcome(Response(400, Html, Text(InvalidRequestMessage)), c)
  {
  }

  /** `/movies` is only a GET route: a POST of it is an invalid request. */
  lemma PostMoviesIsInvalid(c: Catalog, genre: JsValue, body: NewMovie)
    ensures Handle(c, Request(Post, "/movies", genre, body)).response
            == Response(400, Html, Text(InvalidRequestMessage))
  {
  }

  /** A path that names no route is an invalid request, whatever the method. */
  lemma UnknownPathIsInvalid(c: Catalog, verb: Method, genre: JsValue, body: NewMovie)
    ensures Handle(c, Request(verb, "/unknown-path", genre, body))
            == Outcome(Response(400, Html, Text(InvalidRequestMessage)), c)
  {
  }
}
