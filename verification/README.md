# Movie recommendation service — Dafny model

This project models the request handling of a small movie recommendation
service. The service keeps an in-memory catalog of twelve seed movies, with a
director record for each title. At start-up it derives the list of distinct
genres once, in first-seen order. It answers four routes:

- `GET /genres` sends the genre list.
- `GET /movies[?genre=…]` sends all movies, or those of one genre, each
  joined with its director record or with an "Unknown" placeholder.
- `POST /addMovie` appends a movie if its title, genre and year are all truthy.
- `GET /info` sends a welcome text.

Every other request gets a 400 "Invalid request".

The model is functional. The catalog is an immutable record holding the
movie sequence, the title-keyed director map and the frozen genre list.
Each handler is a pure function from a catalog and a request to a response
(status, content type, body) and the next catalog. A whole process lifetime
is a fold of the handler over a request sequence.

Modules, following the structure of `app.js`:

- `JsValues` (`js_values.dfy`): the JavaScript values that reach the
  handlers. It gives truthiness (ToBoolean) and string conversion
  (ToString). String conversion is used by the `${genre}` template and by the
  property lookup `directors[title]`.
- `OrderedDedup` (`ordered_dedup.dfy`): a JavaScript Set spread back into an
  array, as ordered de-duplication, with its first-seen-order lemma. Also a
  one-pass method with a seen-set, proved equal to it.
- `MovieCatalog` (`catalog.dfy`): movies, directors, the catalog state, the
  director lookup, the join, the genre filter, the movie query and the
  append.
- `Seed` (`seed.dfy`): the seed movies and directors and the initial
  catalog, with facts about them.
- `Router` (`router.dfy`): route selection and the five handlers.
- `Service` (`service.dfy`): request sequences from the initial catalog, the
  invariants every reachable catalog keeps, and the concrete request
  scenarios the service is expected to satisfy.

Modelling choices:

- Movie fields are JavaScript values, not strings. The add route stores the
  JSON body as it arrives, so a title may be a number and a year may be a
  string (the browser client sends the year as the text of an input field).
- Equality of these values is JavaScript strict equality (`===`). That means
  no coercion, and strings compare case-sensitively.
- Express matches routes case-insensitively and accepts one trailing slash
  by default. A GET route also answers HEAD. The model does the same.
- Every error and success text is sent by `res.send` of a string without a
  `res.type` call, which gives `text/html` (app.js:108, 127-129, 164-167,
  188). Only `/info` sets `text/plain` (app.js:177). The model gives each
  response the content type the code sets.
- The add handler's doc comment speaks of missing fields (app.js:155), but
  the code tests truthiness (app.js:163). So an empty string, `0`, `false`
  or `null` is rejected like a missing field. The model follows the code.
- A director's `age` is a number in the stored records and the string
  "Unknown" in the placeholder, so it is a JavaScript value too.

## Model

| member | source | states |
|---|---|---|
| `JsValues.ToJsString` | app.js:129-134 | A string converts to itself; a number converts to a non-empty text starting with a digit or a minus sign |
| `JsValues.NumberStringInjective` | app.js:134 | Two numbers with the same string form are equal: distinct numeric titles convert to distinct property keys |
| `JsValues.DecimalRoundTrip` | app.js:134 | Reading back the decimal digits a number converts to gives the number |
| `OrderedDedup.Dedup` | app.js:96 | The result has no repeated element and holds exactly the elements of the input |
| `OrderedDedup.DedupKeepsFirstSeenOrder` | app.js:96 | g comes before h in the result if and only if g first occurs before h in the input |
| `OrderedDedup.DedupOfDistinct` | app.js:96 | An input without repeats comes back unchanged |
| `OrderedDedup.DedupIgnoresRepeats` | app.js:96 | Appending elements that were already seen leaves the result unchanged |
| `OrderedDedup.DistinctInOrder` | app.js:96 | One pass with a set of seen elements builds exactly the ordered de-duplication |
| `MovieCatalog.GenresOfDistinctAndComplete` | app.js:96 | The genre list has no repeats, and a value is in it if and only if some movie has that genre |
| `MovieCatalog.PlaceholderIffNoRecord` | app.js:134 | A title gets its stored record when its key exists; when no stored record equals the placeholder, it gets the placeholder if and only if the key is missing |
| `MovieCatalog.JoinKeepsMoviesAndAttachesDirectors` | app.js:132-135 | Dropping `director` from the joined entries gives back the movies in order with fields unchanged; each entry's director is its title's lookup |
| `MovieCatalog.MoviesOfGenre` | app.js:125 | Every kept movie is from the catalog and has exactly the queried genre; every catalog movie with that genre is kept |
| `MovieCatalog.MoviesOfGenreAppend` | app.js:125 | Filtering distributes over concatenation, so the kept movies stay in catalog order |
| `MovieCatalog.MoviesOfGenreExtremes` | app.js:125-127 | All movies are kept when all have the genre; the result is empty if and only if no movie has it |
| `MovieCatalog.QueryMovies` | app.js:120-150 | A falsy genre returns every movie in order; a truthy one gives "none" if and only if no movie matches, else exactly the matching movies in order; every entry carries its title's director |
| `MovieCatalog.AddMovie` | app.js:161-169 | Accepted if and only if title, genre and year are all truthy; an accepted movie is appended at the end with earlier entries unchanged; a rejected one leaves the catalog identical; directors and genres never change |
| `MovieCatalog.AddedMovieJoinsItsGenre` | app.js:164 | After an accepted add, the query for the new genre gives the earlier matches followed by the new movie |
| `Seed.SeedGenresAreActionComedyDrama` | app.js:96 | For the seed movies (lines 16-35) the genre list is Action, Comedy, Drama |
| `Seed.SeedHasNoPlaceholder` | app.js:37-90 | No stored director record equals the Unknown placeholder |
| `Seed.SeedMoviesHaveDirectors` | app.js:16-90 | Every seed movie's title has a director record, so none of them gets the placeholder |
| `Seed.NumericTitleGetsPlaceholder` | app.js:134 | A movie added with a numeric title always gets the placeholder director |
| `Seed.SeedMoviesOfGenre` | app.js:125 | Querying the seed movies for Action, Comedy or Drama gives that genre's four movies; any other genre gives none |
| `Router.CatchAllIffUnmatched` | app.js:105-189 | A request reaches the catch-all if and only if it is neither a GET/HEAD of /genres, /movies, /info nor a POST of /addMovie |
| `Router.ClientPathsRoute` | app.js:105-176 | The four route paths, as registered, reach their own handlers |
| `Router.PathVariantsRoute` | app.js:105-176 | Any path matching a route pattern in any letter case, with or without one trailing slash, reaches that route; a GET route also takes HEAD; no earlier route captures it |
| `Router.Handle` | app.js:105-189 | Every response has status 200, 201, 400 or 404; only a 201 add changes the catalog; directors and genres never change |
| `Router.GenresEndpoint` | app.js:105-113 | /genres answers 404 if and only if the genre list is empty, else 200 with the list as JSON |
| `Router.MoviesEndpointUnfiltered` | app.js:140-149 | Without a truthy genre, /movies answers 200 as JSON with every movie in order, each with its director |
| `Router.MoviesEndpointFiltered` | app.js:123-139 | With a truthy genre, /movies answers only 200 or 404; 404 naming the genre if and only if nothing matches; a 200 is JSON holding exactly the matching movies in order, each with its title's director |
| `Router.AddMovieEndpoint` | app.js:161-169 | A complete body gives 201 and appends the movie; otherwise 400 and the catalog is identical |
| `Router.InfoEndpoint` | app.js:176-179 | /info always answers 200 with the welcome text as text/plain and changes nothing |
| `Router.CatchAllEndpoint` | app.js:187-189 | Every unmatched request answers 400 "Invalid request" and changes nothing |
| `Router.PostMoviesIsInvalid` | app.js:187-189 | POST /movies is an invalid request |
| `Router.UnknownPathIsInvalid` | app.js:187-189 | A path that names no route answers 400 "Invalid request" for every method |
| `Service.RunKeepsCatalogInvariants` | app.js:161-169 | Over any request sequence, directors and genres are unchanged, the earlier movies stay a prefix, and every movie has truthy title, genre and year |
| `Service.SeedIsComplete` | app.js:16-35 | Every seed movie has a truthy title, genre and year |
| `Service.GenresNeverChange` | app.js:96-113 | After any request sequence, /genres still answers 200 with Action, Comedy, Drama; added movies never enter it |
| `Service.SeedMoviesKeepTheirDirectors` | app.js:16-90 | In every reachable catalog the seed movies come first, and each looks up the same director record as at start-up, never the placeholder |
| `Service.FreshActionQuery` | app.js:120-139 | On a fresh server the Action query answers 200 with the four Action movies joined with their directors |
| `Service.FreshUnknownGenreQuery` | app.js:123-129 | On a fresh server a query for a genre that no seed movie has answers 404 with a message naming it |
| `Service.AddThenQuery` | app.js:161-169 | Adding a complete Action movie with an unknown title gives 201; the Action query then has five entries, the new one last with the placeholder director |
| `Service.IncompleteAddChangesNothing` | app.js:163-168 | An add without a truthy genre answers 400 and leaves the fresh catalog as it was |

## Left out

- Express setup, CORS and static files are not modelled. This covers
  `app.use(cors())`, `express.static('public')`, and `app.listen` with the PORT
  variable (app.js:8-14, 98, 191-193). These are framework and I/O wiring.
  As a result, every OPTIONS request (the CORS middleware answers it with
  204 and ends it) and a request for a file under `public/` never reach
  these routes. The model sends such requests to the catch-all, as the route
  handlers alone would.
- JSON body parsing is not modelled. A malformed JSON body is rejected by the
  parser before the handler runs. A body that is not JSON arrives as an empty
  object, which the model represents as three `Undefined` fields.
- HTTP framing is not modelled. For a HEAD request the HTTP layer drops the
  body the model computes.
- Router.Handle: its status set {200, 201, 400, 404} describes what the
  handlers send. It does not cover conditional requests: `res.send` sets an
  ETag, and a GET or HEAD whose `If-None-Match` matches it gets 304 instead
  of a 2xx. Request headers are not part of the modelled request.
- JsValues.JsValue: objects and arrays are not modelled as field or query
  values. For example, a repeated `?genre=a&genre=b` gives an array, and an
  object is truthy with its own string form. Numbers are integers only: no
  fractions, no NaN, no precision loss beyond 2^53, and no exponent form of
  String() at 1e21 and above.
- MovieCatalog.DirectorOf: the director map is a plain `map<string, Director>`.
  Inherited object properties such as a title "constructor" are not found.
  Extra fields in an added body are not carried into the catalog or the
  response.
- public/index.js, the browser client, is not part of this model. It is
  DOM rendering and `fetch` calls.
- Concurrency is not modelled. Node runs each handler to completion, so
  requests are modelled one at a time as state transitions.
