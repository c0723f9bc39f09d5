/**
 * MovieImportService: walks the rows of a movie file in order; each row is
 * checked for a title, a stored genre, an optional release date and an
 * optional resume; the first failing check records one "Line k: ..."
 * message and skips the row, otherwise the movie is created and linked to
 * those of its listed actors that are stored. The rows, the stored genre
 * and actor names, and the datastore's verdict on a create are parameters.
 */
module MovieImport {
  import opened Wrappers
  import opened Text
  import opened Dates
  import opened ImportCore

  /** CSV_LINE_LIMIT: the longest resume an imported row may carry. */
  const CsvLineLimit: nat := 500

  /** The values passed to Movie.objects.create. */
  datatype MovieFields = MovieFields(title: string, genre: string, releaseDate: Option<Date>, resume: Option<string>)

  /** A created movie: its fields and the actors it is linked to (movie.actors.set), in the order found. */
  datatype Movie = Movie(fields: MovieFields, actors: seq<string>)

  /** The names Genre.objects.get(name=...) and Actor.objects.get(name=...) find. */
  datatype Catalog = Catalog(genres: set<string>, actors: set<string>)

  /** Why a row is refused by one of the validators. */
  datatype MovieRejection = TitleMissing | GenreMissing | GenreNotFound(name: string) | ReleaseDateMalformed | ResumeTooLong

  /** The text each validator appends after "Line k: ". */
  function Reason(r: MovieRejection): string
  {
    match r
    case TitleMissing => "Title is required"
    case GenreMissing => "Genre is required"
    case GenreNotFound(name) => "Genre \"" + name + "\" not found. Create the genre first."
    case ReleaseDateMalformed => "Invalid release date. Use the format YYYY-MM-DD"
    case ResumeTooLong => "Resume exceeds " + NatToString(CsvLineLimit) + " characters"
  }

  // The checks, one field at a time.

  /** __validate_genre on the trimmed name: it must be given and stored under exactly that name. */
  function GenreCheck(name: string, catalog: Catalog): Result<string, MovieRejection>
  {
    if name == [] then Failure(GenreMissing)
    else if name in catalog.genres then Success(name)
    else Failure(GenreNotFound(name))
  }

  /**
   * __parse_release_date and its caller on the raw cell: an empty cell is no
   * date; any other cell, once trimmed, must parse as %Y-%m-%d.
   */
  function ReleaseDateCheck(raw: string): Result<Option<Date>, MovieRejection>
  {
    if raw == [] then Success(None)
    else match ParseIsoDate(Strip(raw))
      case None => Failure(ReleaseDateMalformed)
      case Some(d) => Success(Some(d))
  }

  /**
   * __validate_resume and its caller on the raw cell: an empty cell is no
   * resume; any other cell is trimmed and must then be at most
   * CSV_LINE_LIMIT characters long.
   */
  function ResumeCheck(raw: string): Result<Option<string>, MovieRejection>
  {
    if raw == [] then Success(None)
    else if |Strip(raw)| > CsvLineLimit then Failure(ResumeTooLong)
    else Success(Some(Strip(raw)))
  }

  /**
   * The rows __process_row accepts, stated field by field: a non-empty
   * trimmed title; a trimmed genre name that is stored; an empty release-date
   * cell, or one that parses once trimmed; an empty resume cell, or one that
   * trims to at most CSV_LINE_LIMIT characters.
   */
  predicate ValidMovieRow(row: Row, catalog: Catalog)
  {
    var genre := Strip(Get(row, "genre"));
    && Strip(Get(row, "title")) != []
    && genre != [] && genre in catalog.genres
    && (Get(row, "release_date") == [] || ParseIsoDate(Strip(Get(row, "release_date"))).Some?)
    && (Get(row, "resume") == [] || |Strip(Get(row, "resume"))| <= CsvLineLimit)
  }

  /** The checks of __process_row in order (title, genre, release date, resume); the first failure wins. */
  function MovieRowCheck(row: Row, catalog: Catalog): (r: Result<MovieFields, MovieRejection>)
    ensures r.Success? <==> ValidMovieRow(row, catalog)
  {
    var title := Strip(Get(row, "title"));
    if title == [] then Failure(TitleMissing)
    else match GenreCheck(Strip(Get(row, "genre")), catalog)
      case Failure(r) => Failure(r)
      case Success(genre) =>
        match ReleaseDateCheck(Get(row, "release_date"))
        case Failure(r) => Failure(r)
        case Success(date) =>
          match ResumeCheck(Get(row, "resume"))
          case Failure(r) => Failure(r)
          case Success(resume) => Success(MovieFields(title, genre, date, resume))
  }

  /** The pieces of the comma-separated actors cell, trimmed, with the blank ones dropped. */
  function CleanPieces(pieces: seq<string>): (names: seq<string>)
    ensures forall x :: x in names ==> x != []
  {
    if pieces == [] then []
    else
      var last := Strip(pieces[|pieces| - 1]);
      CleanPieces(pieces[..|pieces| - 1]) + (if last == [] then [] else [last])
  }

  /** actor_names_list for the (already trimmed) actors cell. */
  function ActorNameList(actorsNames: string): seq<string>
  {
    if actorsNames == [] then [] else CleanPieces(Split(actorsNames, ','))
  }

  /** The listed names that are stored, in list order (names not found are dropped). */
  function FoundActors(names: seq<string>, stored: set<string>): seq<string>
  {
    if names == [] then []
    else FoundActors(names[..|names| - 1], stored) + (if names[|names| - 1] in stored then [names[|names| - 1]] else [])
  }

  /**
   * How __process_row ends for row number rowNum: the first failing check
   * gives one "Line k: ..." message; otherwise the movie is created with the
   * stored actors among those listed, unless the datastore refuses the create
   * with an exception message (`rejects`), recorded as an unexpected error.
   */
  function MovieRowOutcome(row: Row, rowNum: nat, catalog: Catalog, rejects: MovieFields -> Option<string>): (o: RowOutcome<Movie>)
    ensures o.Created? <==> ValidMovieRow(row, catalog) && rejects(MovieRowCheck(row, catalog).value).None?
    ensures o.Created? ==> o.record.fields == MovieRowCheck(row, catalog).value
  {
    match MovieRowCheck(row, catalog)
    case Failure(r) => Skipped(LineMessage(rowNum, Reason(r)))
    case Success(fields) =>
      match rejects(fields)
      case Some(e) => Skipped(UnexpectedErrorMessage(rowNum, e))
      case None => Created(Movie(fields, FoundActors(ActorNameList(Strip(Get(row, "actors"))), catalog.actors)))
  }

  function RowOutcomes(catalog: Catalog, rejects: MovieFields -> Option<string>): (Row, nat) -> RowOutcome<Movie>
  {
    (row: Row, k: nat) => MovieRowOutcome(row, k, catalog, rejects)
  }

  /** What import_movies adds to a service: the rows' outcomes applied in order. */
  function ImportResult(rows: seq<Row>, catalog: Catalog, rejects: MovieFields -> Option<string>): ImportState<Movie>
  {
    Run(rows, RowOutcomes(catalog, rejects))
  }

  class MovieImportService {
    const filePath: string
    var createdCount: nat
    var skippedCount: nat
    var errors: seq<string>
    /** The movies created so far, in order (what the datastore received). */
    var created: seq<Movie>

    function State(): ImportState<Movie>
      reads this
    {
      ImportState(createdCount, skippedCount, errors, created)
    }

    constructor (filePath: string)
      ensures this.filePath == filePath && State() == Initial()
    {
      this.filePath := filePath;
      createdCount, skippedCount, errors, created := 0, 0, [], [];
    }

    /** Records one skipped row with the given message. */
    method Skip(message: string)
      modifies this
      ensures State() == Apply(old(State()), Skipped(message))
    {
      errors := errors + [message];
      skippedCount := skippedCount + 1;
    }

    /** __validate_title: the (already trimmed) title must not be empty. */
    method ValidateTitle(title: string, rowNum: nat) returns (ok: bool)
      modifies this
      ensures ok <==> title != []
      ensures State() == if ok then old(State()) else Apply(old(State()), Skipped(LineMessage(rowNum, Reason(TitleMissing))))
    {
      if title == [] {
        Skip(LineMessage(rowNum, Reason(TitleMissing)));
        return false;
      }
      return true;
    }

    /** __validate_genre: the stored genre of that exact (trimmed) name, or a skip. */
    method ValidateGenre(genreName: string, rowNum: nat, catalog: Catalog) returns (genre: Option<string>)
      modifies this
      ensures genre == match GenreCheck(genreName, catalog) case Success(g) => Some(g) case Failure(_) => None
      ensures State() == match GenreCheck(genreName, catalog)
                         case Success(_) => old(State())
                         case Failure(r) => Apply(old(State()), Skipped(LineMessage(rowNum, Reason(r))))
    {
      if genreName == [] {
        Skip(LineMessage(rowNum, Reason(GenreMissing)));
        return None;
      }
      if genreName !in catalog.genres {
        Skip(LineMessage(rowNum, Reason(GenreNotFound(genreName))));
        return None;
      }
      return Some(genreName);
    }

    /**
     * __parse_release_date on the raw cell: None for an empty cell (no
     * error), the parsed date, or None after recording the format error.
     */
    method ParseReleaseDate(dateStr: string, rowNum: nat) returns (date: Option<Date>)
      modifies this
      ensures date == match ReleaseDateCheck(dateStr) case Success(d) => d case Failure(_) => None
      ensures State() == match ReleaseDateCheck(dateStr)
                         case Success(_) => old(State())
                         case Failure(r) => Apply(old(State()), Skipped(LineMessage(rowNum, Reason(r))))
    {
      if dateStr == [] {
        return None;
      }
      date := ParseIsoDate(Strip(dateStr));
      if date.None? {
        Skip(LineMessage(rowNum, Reason(ReleaseDateMalformed)));
      }
    }

    /**
     * __validate_resume on the raw cell: None for an empty cell (no error),
     * the trimmed resume, or None after recording the length error.
     */
    method ValidateResume(resume: string, rowNum: nat) returns (trimmed: Option<string>)
      modifies this
      ensures trimmed == match ResumeCheck(resume) case Success(r) => r case Failure(_) => None
      ensures State() == match ResumeCheck(resume)
                         case Success(_) => old(State())
                         case Failure(r) => Apply(old(State()), Skipped(LineMessage(rowNum, Reason(r))))
    {
      if resume == [] {
        return None;
      }
      var r := Strip(resume);
      if |r| > CsvLineLimit {
        Skip(LineMessage(rowNum, Reason(ResumeTooLong)));
        return None;
      }
      return Some(r);
    }

    /**
     * __get_actors_by_names: the stored actors among the names of the
     * (trimmed) actors cell, in list order; a name that is not stored is only
     * logged, so nothing of the service changes.
     */
    method GetActorsByNames(actorsNames: string, stored: set<string>) returns (actorsToAdd: seq<string>)
      ensures actorsToAdd == FoundActors(ActorNameList(actorsNames), stored)
    {
      if actorsNames == [] {
        return [];
      }
      var actorNamesList := CleanPieces(Split(actorsNames, ','));
      actorsToAdd := [];
      for i := 0 to |actorNamesList|
        invariant actorsToAdd == FoundActors(actorNamesList[..i], stored)
      {
        assert actorNamesList[..i + 1][..i] == actorNamesList[..i];
        if actorNamesList[i] in stored {
          actorsToAdd := actorsToAdd + [actorNamesList[i]];
        }
      }
      assert actorNamesList[..|actorNamesList|] == actorNamesList;
    }

    /** __process_row: the bookkeeping of one row; returns the created movie, if any. */
    method ProcessRow(row: Row, rowNum: nat, catalog: Catalog, rejects: MovieFields -> Option<string>) returns (movie: Option<Movie>)
      modifies this
      ensures State() == Apply(old(State()), MovieRowOutcome(row, rowNum, catalog, rejects))
      ensures movie == match MovieRowOutcome(row, rowNum, catalog, rejects)
                       case Created(m) => Some(m)
                       case Skipped(_) => None
    {
      var fields := CheckRow(row, rowNum, catalog);
      if fields.None? {
        return None;
      }
      var failure := rejects(fields.value);
      if failure.Some? {
        Skip(UnexpectedErrorMessage(rowNum, failure.value));
        return None;
      }
      var actorsNames := Strip(Get(row, "actors"));
      var actorsToAdd := GetActorsByNames(actorsNames, catalog.actors);
      var m := Movie(fields.value, actorsToAdd);
      created := created + [m];
      createdCount := createdCount + 1;
      return Some(m);
    }

    /** The validating part of __process_row: the fields to create with, or None after recording the first failure. */
    method CheckRow(row: Row, rowNum: nat, catalog: Catalog) returns (fields: Option<MovieFields>)
      modifies this
      ensures fields == match MovieRowCheck(row, catalog) case Success(f) => Some(f) case Failure(_) => None
      ensures State() == match MovieRowCheck(row, catalog)
                         case Success(_) => old(State())
                         case Failure(r) => Apply(old(State()), Skipped(LineMessage(rowNum, Reason(r))))
    {
      var title := Strip(Get(row, "title"));
      var ok := ValidateTitle(title, rowNum);
      if !ok {
        return None;
      }
      var genreName := Strip(Get(row, "genre"));
      var genre := ValidateGenre(genreName, rowNum, catalog);
      if genre.None? {
        return None;
      }
      var releaseDate := ParseReleaseDate(Get(row, "release_date"), rowNum);
      if releaseDate.None? && Get(row, "release_date") != [] {
        return None;
      }
      var resume := ValidateResume(Get(row, "resume"), rowNum);
      if resume.None? && Get(row, "resume") != [] {
        return None;
      }
      return Some(MovieFields(title, genre.value, releaseDate, resume));
    }

    /** import_movies: processes every row in order and reports the counters and the errors. */
    method ImportMovies(rows: seq<Row>, catalog: Catalog, rejects: MovieFields -> Option<string>)
      returns (createdCount: nat, skippedCount: nat, errors: seq<string>)
      modifies this
      ensures State() == Concat(old(State()), ImportResult(rows, catalog, rejects))
      ensures createdCount == this.createdCount && skippedCount == this.skippedCount && errors == this.errors
    {
      for i := 0 to |rows|
        invariant State() == Concat(old(State()), ImportResult(rows[..i], catalog, rejects))
      {
        var _ := ProcessRow(rows[i], i, catalog, rejects);
        RunStep(rows, i, RowOutcomes(catalog, rejects));
        ConcatApply(old(State()), ImportResult(rows[..i], catalog, rejects), MovieRowOutcome(rows[i], i, catalog, rejects));
      }
      assert rows[..|rows|] == rows;
      return this.createdCount, this.skippedCount, this.errors;
    }
  }

  // What a row becomes.

  /**
   * A row creates a movie exactly when every check passes and the datastore
   * accepts it; the movie carries the checked fields and the stored actors
   * among those listed.
   */
  lemma MovieCreatedIff(row: Row, rowNum: nat, catalog: Catalog, rejects: MovieFields -> Option<string>)
    ensures var o := MovieRowOutcome(row, rowNum, catalog, rejects);
            o.Created? <==> ValidMovieRow(row, catalog) && rejects(MovieRowCheck(row, catalog).value).None?
    ensures var o := MovieRowOutcome(row, rowNum, catalog, rejects);
            o.Created? ==> && o.record.fields == MovieRowCheck(row, catalog).value
                           && o.record.actors == FoundActors(ActorNameList(Strip(Get(row, "actors"))), catalog.actors)
  {
  }

  /**
   * What a passing row stores: the trimmed, non-empty title; the trimmed name
   * of a stored genre; no date exactly when the date cell is empty; no resume
   * exactly when the resume cell is empty, and otherwise the trimmed resume
   * of at most CSV_LINE_LIMIT characters.
   */
  lemma CheckedFields(row: Row, catalog: Catalog)
    requires MovieRowCheck(row, catalog).Success?
    ensures var f := MovieRowCheck(row, catalog).value;
            && f.title == Strip(Get(row, "title")) && f.title != [] && NoEdgeSpace(f.title)
            && f.genre == Strip(Get(row, "genre")) && f.genre in catalog.genres
            && (f.releaseDate.None? <==> Get(row, "release_date") == [])
            && (f.releaseDate.Some? ==> ParseIsoDate(Strip(Get(row, "release_date"))) == f.releaseDate)
            && (f.resume.None? <==> Get(row, "resume") == [])
            && (f.resume.Some? ==> f.resume.value == Strip(Get(row, "resume")) && |f.resume.value| <= CsvLineLimit)
  {
    StripNoEdge(Get(row, "title"));
  }

  /**
   * An empty release-date cell does not stop a row: a row whose other three
   * fields pass is accepted, with no date, and is created unless the
   * datastore refuses it.
   */
  lemma EmptyReleaseDateRowAccepted(row: Row, rowNum: nat, catalog: Catalog, rejects: MovieFields -> Option<string>)
    requires Get(row, "release_date") == []
    requires Strip(Get(row, "title")) != []
    requires Strip(Get(row, "genre")) != [] && Strip(Get(row, "genre")) in catalog.genres
    requires Get(row, "resume") == [] || |Strip(Get(row, "resume"))| <= CsvLineLimit
    ensures MovieRowCheck(row, catalog).Success? && MovieRowCheck(row, catalog).value.releaseDate == None
    ensures var o := MovieRowOutcome(row, rowNum, catalog, rejects);
            o.Created? <==> rejects(MovieRowCheck(row, catalog).value).None?
  {
    assert ValidMovieRow(row, catalog);
    CheckedFields(row, catalog);
  }

  /** The checks run title, genre, release date, resume, create; only the first failure is reported. */
  lemma MovieChecksInOrder(row: Row, rowNum: nat, catalog: Catalog, rejects: MovieFields -> Option<string>)
    ensures var o := MovieRowOutcome(row, rowNum, catalog, rejects);
            var title := Strip(Get(row, "title"));
            var genre := GenreCheck(Strip(Get(row, "genre")), catalog);
            var date := ReleaseDateCheck(Get(row, "release_date"));
            var resume := ResumeCheck(Get(row, "resume"));
            && (title == [] ==> o == Skipped(LineMessage(rowNum, Reason(TitleMissing))))
            && (title != [] && genre.Failure? ==> o == Skipped(LineMessage(rowNum, Reason(genre.error))))
            && (title != [] && genre.Success? && date.Failure? ==> o == Skipped(LineMessage(rowNum, Reason(date.error))))
            && (title != [] && genre.Success? && date.Success? && resume.Failure?
                ==> o == Skipped(LineMessage(rowNum, Reason(resume.error))))
  {
  }

  /**
   * A genre is looked up by its exact trimmed name: an empty name is "Genre is
   * required", a name not stored is refused with that name in the message.
   */
  lemma GenreMessages(name: string, catalog: Catalog)
    ensures GenreCheck(name, catalog).Success? <==> name != [] && name in catalog.genres
    ensures name == [] ==> Reason(GenreCheck(name, catalog).error) == "Genre is required"
    ensures name != [] && name !in catalog.genres
            ==> Reason(GenreCheck(name, catalog).error) == "Genre \"" + name + "\" not found. Create the genre first."
  {
  }

  /** The lookup is case-sensitive: with only "Drama" stored, the genre "drama" is not found. */
  lemma GenreLookupIsExact()
    ensures GenreCheck("drama", Catalog({"Drama"}, {})) == Failure(GenreNotFound("drama"))
  {
  }

  // The release date.

  /** An empty date cell is no date and no error. */
  lemma EmptyReleaseDateAccepted()
    ensures ReleaseDateCheck("") == Success(None)
  {
  }

  /**
   * A date cell holding only whitespace is not empty, so it is parsed, and
   * the empty string it strips to is not a date: the row is refused.
   */
  lemma BlankReleaseDateRejected(raw: string)
    requires raw != [] && forall k :: 0 <= k < |raw| ==> IsSpace(raw[k])
    ensures ReleaseDateCheck(raw) == Failure(ReleaseDateMalformed)
  {
    StripCutsSpace(raw);
    RejectsDayFirst();
  }

  /** A non-empty date cell passes exactly when its trimmed text parses as %Y-%m-%d, and then gives that date. */
  lemma ReleaseDateParsed(raw: string)
    requires raw != []
    ensures ReleaseDateCheck(raw).Success? <==> ParseIsoDate(Strip(raw)).Some?
    ensures ReleaseDateCheck(raw).Success? ==> ReleaseDateCheck(raw).value == ParseIsoDate(Strip(raw))
    ensures ReleaseDateCheck(raw).Failure? ==> Reason(ReleaseDateCheck(raw).error) == "Invalid release date. Use the format YYYY-MM-DD"
  {
  }

  /** A day-first date such as "16-07-2010" is refused. */
  lemma DayFirstReleaseDateRejected()
    ensures ReleaseDateCheck("01-01-2020") == Failure(ReleaseDateMalformed)
  {
    RejectsDayFirst();
  }

  // The resume.

  /** The limit is on the trimmed resume: up to CSV_LINE_LIMIT characters pass, one more is refused. */
  lemma ResumeLimit(raw: string)
    requires raw != []
    ensures ResumeCheck(raw).Success? <==> |Strip(raw)| <= CsvLineLimit
    ensures |Strip(raw)| == 500 ==> ResumeCheck(raw) == Success(Some(Strip(raw)))
    ensures |Strip(raw)| == 501 ==> ResumeCheck(raw) == Failure(ResumeTooLong)
  {
  }

  /** The refusal names the limit: "Resume exceeds 500 characters". */
  lemma ResumeMessage()
    ensures Reason(ResumeTooLong) == "Resume exceeds 500 characters"
  {
    assert NatToString(500) == NatToString(50) + ['0'];
    assert NatToString(50) == NatToString(5) + ['0'];
  }

  /** An empty resume cell is no resume; one holding only whitespace is stored as the empty resume. */
  lemma BlankResumeStoredEmpty(raw: string)
    requires forall k :: 0 <= k < |raw| ==> IsSpace(raw[k])
    ensures raw == [] ==> ResumeCheck(raw) == Success(None)
    ensures raw != [] ==> ResumeCheck(raw) == Success(Some(""))
  {
    StripCutsSpace(raw);
  }

  // The actors.

  /** The names taken from the actors cell are non-empty, trimmed and free of commas. */
  lemma ActorNamesClean(actorsNames: string)
    ensures forall x :: x in ActorNameList(actorsNames) ==> x != [] && NoEdgeSpace(x) && ',' !in x
  {
    if actorsNames != [] {
      CleanPiecesSpec(Split(actorsNames, ','));
    }
  }

  lemma {:induction false} CleanPiecesSpec(pieces: seq<string>)
    requires forall p :: p in pieces ==> ',' !in p
    ensures forall x :: x in CleanPieces(pieces) ==> NoEdgeSpace(x) && ',' !in x
  {
    if pieces != [] {
      var pre := pieces[..|pieces| - 1];
      assert forall p :: p in pre ==> p in pieces;
      CleanPiecesSpec(pre);
      var last := pieces[|pieces| - 1];
      assert last in pieces;
      StripNoEdge(last);
      StripSlice(last);
    }
  }

  /** A listed actor is linked exactly when it is stored; the links keep list order and a list of stored names is linked whole. */
  lemma {:induction false} FoundActorsSpec(names: seq<string>, stored: set<string>)
    ensures forall x :: x in FoundActors(names, stored) <==> x in names && x in stored
    ensures |FoundActors(names, stored)| <= |names|
    ensures (forall x :: x in names ==> x in stored) ==> FoundActors(names, stored) == names
  {
    if names != [] {
      var pre := names[..|names| - 1];
      FoundActorsSpec(pre, stored);
      assert names == pre + [names[|names| - 1]];
      if forall x :: x in names ==> x in stored {
        assert forall x :: x in pre ==> x in names;
      }
    }
  }

  /**
   * Actors that are not stored never refuse a row: whether a row is created
   * or skipped, and with which message, does not depend on the stored actors.
   */
  lemma UnknownActorsIgnored(row: Row, rowNum: nat, genres: set<string>, a1: set<string>, a2: set<string>,
                             rejects: MovieFields -> Option<string>)
    ensures var o1 := MovieRowOutcome(row, rowNum, Catalog(genres, a1), rejects);
            var o2 := MovieRowOutcome(row, rowNum, Catalog(genres, a2), rejects);
            && o1.Created? == o2.Created?
            && (o1.Skipped? ==> o1 == o2)
            && (o1.Created? ==> o1.record.fields == o2.record.fields)
  {
    assert MovieRowCheck(row, Catalog(genres, a1)) == MovieRowCheck(row, Catalog(genres, a2));
  }

  /** The pieces of "a, , b" around its two commas. */
  lemma SplitAroundBlank(a: string, b: string)
    requires ',' !in a && ',' !in b
    ensures Split(a + ", , " + b, ',') == [a, " ", " " + b]
  {
    var rest := " " + b;
    assert ',' !in rest;
    SplitWithoutSeparator(rest, ',');
    SplitAtSeparator(" ", ',', rest);
    assert " , " + b == " " + [','] + rest;
    SplitAtSeparator(a, ',', " , " + b);
    assert a + ", , " + b == a + [','] + (" , " + b);
  }

  /** Names separated by commas come back trimmed, and a blank entry between them is dropped. */
  lemma BlankEntriesDropped(a: string, b: string)
    requires a != [] && b != [] && NoEdgeSpace(a) && NoEdgeSpace(b) && ',' !in a && ',' !in b
    ensures ActorNameList(a + ", , " + b) == [a, b]
  {
    var rest := " " + b;
    var pieces := [a, " ", rest];
    SplitAroundBlank(a, b);
    StripNoEdgeSpace(a);
    StripNoEdgeSpace(b);
    assert StripLeft(rest) == StripLeft(b) by { assert rest[1..] == b; }
    assert StripLeft(b) == b;
    assert Strip(" ") == [];
    assert CleanPieces(pieces[..1]) == [a];
    assert CleanPieces(pieces[..2]) == [a] by { assert pieces[..2][..1] == pieces[..1]; }
    assert pieces[..3][..2] == pieces[..2];
    assert pieces[..3] == pieces;
  }

  // The whole file.

  /** Each skipped row's message begins with its own 1-based line number. */
  lemma MovieMessageNamesLine(row: Row, rowNum: nat, catalog: Catalog, rejects: MovieFields -> Option<string>)
    requires MovieRowOutcome(row, rowNum, catalog, rejects).Skipped?
    ensures NamesLine(MovieRowOutcome(row, rowNum, catalog, rejects).message, rowNum)
  {
    match MovieRowCheck(row, catalog)
    case Failure(r) => LineMessageNamesLine(rowNum, Reason(r));
    case Success(f) => UnexpectedErrorMessageNamesLine(rowNum, rejects(f).value);
  }

  lemma MovieMessagesNameLines(rows: seq<Row>, catalog: Catalog, rejects: MovieFields -> Option<string>)
    ensures var outcome := RowOutcomes(catalog, rejects);
            forall k :: 0 <= k < |rows| && outcome(rows[k], k).Skipped? ==> NamesLine(outcome(rows[k], k).message, k)
  {
    var outcome := RowOutcomes(catalog, rejects);
    forall k | 0 <= k < |rows| && outcome(rows[k], k).Skipped?
      ensures NamesLine(outcome(rows[k], k).message, k)
    {
      MovieMessageNamesLine(rows[k], k, catalog, rejects);
    }
  }

  /**
   * After import_movies on a fresh service: every row is counted once,
   * skipped_count is the number of messages, and message j is the message of
   * skipped row SkippedRows[j], those rows increasing, each message naming
   * its own line.
   */
  lemma MovieImportAccounting(rows: seq<Row>, catalog: Catalog, rejects: MovieFields -> Option<string>)
    ensures var r := ImportResult(rows, catalog, rejects);
            r.createdCount + r.skippedCount == |rows| && |r.errors| == r.skippedCount
    ensures var os := Outcomes(rows, RowOutcomes(catalog, rejects));
            var r := ImportResult(rows, catalog, rejects);
            && |SkippedRows(os)| == |r.errors|
            && (forall i, j :: 0 <= i < j < |SkippedRows(os)| ==> SkippedRows(os)[i] < SkippedRows(os)[j])
            && (forall j :: 0 <= j < |r.errors| ==>
                  && SkippedRows(os)[j] < |rows|
                  && os[SkippedRows(os)[j]].Skipped?
                  && r.errors[j] == os[SkippedRows(os)[j]].message
                  && NamesLine(r.errors[j], SkippedRows(os)[j]))
  {
    MovieMessagesNameLines(rows, catalog, rejects);
    RunAccounting(rows, RowOutcomes(catalog, rejects));
  }
}
