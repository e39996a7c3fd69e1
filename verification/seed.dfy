/** The data the server starts with: twelve movies, four in each of three
    genres, a director record for each of their titles, and the genre list
    derived from them. */
module Seed {
  import opened JsValues
  import opened OrderedDedup
  import opened MovieCatalog

  const ActionSeed: seq<Movie> := [
    Movie(Str("Avengers: Endgame"), Str("Action"), Num(2019)),
    Movie(Str("Mad Max: Fury Road"), Str("Action"), Num(2015)),
    Movie(Str("John Wick"), Str("Action"), Num(2014)),
    Movie(Str("The Dark Knight"), Str("Action"), Num(2008))
  ]

  const ComedySeed: seq<Movie> := [
    Movie(Str("The Grand Budapest Hotel"), Str("Comedy"), Num(2014)),
    Movie(Str("Superbad"), Str("Comedy"), Num(2007)),
    Movie(Str("Borat"), Str("Comedy"), Num(2006)),
    Movie(Str("Anchorman"), Str("Comedy"), Num(2004))
  ]

  const DramaSeed: seq<Movie> := [
    Movie(Str("Parasite"), Str("Drama"), Num(2019)),
    Movie(Str("The Shawshank Redemption"), Str("Drama"), Num(1994)),
    Movie(Str("Forrest Gump"), Str("Drama"), Num(1994)),
    Movie(Str("Schindler\U{2019}s List"), Str("Drama"), Num(1993))
  ]

  /** The twelve seed movies, four of each genre, in source order. */
  const SeedMovies: seq<Movie> := ActionSeed + ComedySeed + DramaSeed

  const SeedDirectors: map<string, Director> := map[
    "Avengers: Endgame" := Director("Anthony and Joe Russo", Num(50), ["MTV Movie Award"]),
    "Mad Max: Fury Road" := Director("George Miller", Num(77), ["Academy Award"]),
    "John Wick" := Director("Chad Stahelski", Num(53), ["None"]),
    "The Dark Knight" := Director("Christopher Nolan", Num(52), ["Saturn Award"]),
    "The Grand Budapest Hotel" := Director("Wes Anderson", Num(52), ["Silver Bear Award"]),
    "Superbad" := Director("Greg Mottola", Num(57), ["None"]),
    "Borat" := Director("Larry Charles", Num(66), ["AFI Movie of the Year Award"]),
    "Anchorman" := Director("Adam McKay", Num(54), ["BAFTA Award"]),
    "Parasite" := Director("Bong Joon-ho", Num(53),
                           ["Academy Award for Best Picture", "Academy Award for Best Director"]),
    "The Shawshank Redemption" := Director("Frank Darabont", Num(63),
                                           ["Nominated for Academy Award for Best Picture"]),
    "Forrest Gump" := Director("Robert Zemeckis", Num(71), ["Academy Award for Best Director"]),
    "Schindler\U{2019}s List" := Director("Steven Spielberg", Num(76),
                                          ["Academy Award for Best Director", "Academy Award for Best Picture"])
  ]

  const SeedGenres: seq<JsValue> := [Str("Action"), Str("Comedy"), Str("Drama")]

  /** The state of a freshly started server. */
  function InitialCatalog(): Catalog {
    Catalog(SeedMovies, SeedDirectors, GenresOf(SeedMovies))
  }

  function Run4(x: JsValue): seq<JsValue> {
    [x, x, x, x]
  }

  lemma SeedGenreColumn()
    ensures GenreColumn(SeedMovies) == Run4(Str("Action")) + Run4(Str("Comedy")) + Run4(Str("Drama"))
  {
    assert GenreColumn(ActionSeed) == Run4(Str("Action"));
    assert GenreColumn(ComedySeed) == Run4(Str("Comedy"));
    assert GenreColumn(DramaSeed) == Run4(Str("Drama"));
  }

  /** A run of four equal genres, new so far, contributes its genre once. */
  lemma DedupAddRun(p: seq<JsValue>, x: JsValue)
    requires x !in p
    ensures Dedup(p + Run4(x)) == Dedup(p) + [x]
  {
    var q := p + [x];
    calc {
      Dedup(p + Run4(x));
      { assert p + Run4(x) == q + [x, x, x]; }
      Dedup(q + [x, x, x]);
      { assert x in q; DedupIgnoresRepeats(q, [x, x, x]); }
      Dedup(q);
      { DedupAppendOne(p, x); }
      Dedup(p) + [x];
    }
  }

  /** Three runs of four equal genres each contribute their genre once. */
  lemma DedupOfThreeRuns(a: JsValue, c: JsValue, d: JsValue)
    requires a != c && a != d && c != d
    ensures Dedup(Run4(a) + Run4(c) + Run4(d)) == [a, c, d]
  {
    var none: seq<JsValue> := [];
    calc {
      Dedup(Run4(a) + Run4(c) + Run4(d));
      { DedupAddRun(Run4(a) + Run4(c), d); }
      Dedup(Run4(a) + Run4(c)) + [d];
      { DedupAddRun(Run4(a), c); }
      Dedup(Run4(a)) + [c] + [d];
      { assert none + Run4(a) == Run4(a); DedupAddRun(none, a); assert Dedup(none) == []; }
      [a, c, d];
    }
  }

  /** The genres derived at start-up are Action, Comedy and Drama, in that
      order. */
  lemma SeedGenresAreActionComedyDrama()
    ensures GenresOf(SeedMovies) == SeedGenres
    ensures InitialCatalog().genres == SeedGenres
  {
    SeedGenreColumn();
    DedupOfThreeRuns(Str("Action"), Str("Comedy"), Str("Drama"));
  }

  /** A group of movies that all share genre `h` is kept whole by a query
      for `h` and dropped entirely by a query for any other genre. */
  lemma UniformGroupFilter(movies: seq<Movie>, h: JsValue, g: JsValue)
    requires forall i :: 0 <= i < |movies| ==> movies[i].genre == h
    ensures MoviesOfGenre(movies, g) == if g == h then movies else []
  {
    MoviesOfGenreExtremes(movies, g);
  }

  /** A query over three uniform groups picks out the group of that genre. */
  lemma ThreeGroupFilter(a: seq<Movie>, c: seq<Movie>, d: seq<Movie>,
                         ga: JsValue, gc: JsValue, gd: JsValue, g: JsValue)
    requires forall i :: 0 <= i < |a| ==> a[i].genre == ga
    requires forall i :: 0 <= i < |c| ==> c[i].genre == gc
    requires forall i :: 0 <= i < |d| ==> d[i].genre == gd
    ensures MoviesOfGenre(a + c + d, g)
            == (if g == ga then a else []) + (if g == gc then c else []) + (if g == gd then d else [])
  {
    MoviesOfGenreAppend(a + c, d, g);
    MoviesOfGenreAppend(a, c, g);
    UniformGroupFilter(a, ga, g);
    UniformGroupFilter(c, gc, g);
    UniformGroupFilter(d, gd, g);
  }

  /** Querying the seed catalog for a genre gives that genre's four movies,
      and nothing for a genre that no seed movie has. */
  lemma SeedMoviesOfGenre(g: JsValue)
    ensures g == Str("Action") ==> MoviesOfGenre(SeedMovies, g) == ActionSeed
    ensures g == Str("Comedy") ==> MoviesOfGenre(SeedMovies, g) == ComedySeed
    ensures g == Str("Drama") ==> MoviesOfGenre(SeedMovies, g) == DramaSeed
    ensures g !in SeedGenres ==> MoviesOfGenre(SeedMovies, g) == []
  {
    ThreeGroupFilter(ActionSeed, ComedySeed, DramaSeed, Str("Action"), Str("Comedy"), Str("Drama"), g);
  }

  /** No stored record is the placeholder, so the placeholder in a response
      always means "no record". */
  lemma SeedHasNoPlaceholder()
    ensures UnknownDirector !in SeedDirectors.Values
  {
  }

  /** Every seed movie has a director record. */
  lemma SeedMoviesHaveDirectors()
    ensures forall i :: 0 <= i < |SeedMovies| ==> ToJsString(SeedMovies[i].title) in SeedDirectors
    ensures forall i :: 0 <= i < |SeedMovies| ==>
              DirectorOf(SeedDirectors, SeedMovies[i].title) != UnknownDirector
  {
  }

  /** Every seed key starts with a letter, while a number's string form starts
      with a digit or a minus sign: a movie added with a numeric title always
      gets the placeholder director. */
  lemma NumericTitleGetsPlaceholder(n: int)
    ensures DirectorOf(SeedDirectors, Num(n)) == UnknownDirector
  {
  }
}
