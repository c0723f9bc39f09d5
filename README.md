# flix-api core, modelled in Dafny

flix-api is a Django REST service for a movie catalogue: genres, actors,
movies and reviews. This project models the parts of it that hold real
decision logic and proves what they promise:

- **CSV/Excel import of actors and movies** (`ActorImportService`,
  `MovieImportService`). Each row is validated in a fixed order. A row
  either creates a record or is skipped with one error message that names
  its line. The services keep `created_count`, `skipped_count` and `errors`
  on the object and return them.
- **The `import_actors` management command.** It picks a file reader by
  extension, runs the actor import and writes a summary to stdout.
- **The global object permission** (`GlobalDefaultPermission`). It maps an
  HTTP method to an action and builds the Django permission codename
  `<app_label>.<action>_<model_name>`.
- **The genre serializers.** `validate_name` refuses numeric names.
  `validate_genres` trims, drops blanks, refuses numeric entries and removes
  case-insensitive duplicates, keeping the first spelling.
- **The movie serializers.** These are the release-date and resume validators
  and the `rate` of a movie.
- **The two movie statistics services**: the current one in
  `stats_service.py` and the older one in `stats.py`.

Each file is one module:

| file | module | form |
|---|---|---|
| wrappers.dfy | `Wrappers` | `Option` and `Result` |
| text.dfy | `Text` | Python's `str.strip`, `lower`, `isnumeric`, `split`, `join`, and decimal rendering of integers |
| dates.dfy | `Dates` | `datetime.strptime(s, '%Y-%m-%d')` and `date.isoformat()` |
| import_core.dfy | `ImportCore` | The per-row outcome of an import, the fold of outcomes into counters and messages, and its accounting lemmas |
| actor_import.dfy | `ActorImport` | Class `ActorImportService`, whose methods update its fields, plus the per-row specification |
| movie_import.dfy | `MovieImport` | Class `MovieImportService`, the same way |
| import_actors_command.dfy | `ImportActorsCommand` | Class `Command`, with stdout as a sequence of styled lines |
| permissions.dfy | `Permissions` | Pure functions |
| genre_serializers.dfy | `GenreSerializers` | A method with the source's loop, proved against a specification function |
| movie_serializers.dfy | `MovieSerializers` | Pure functions, as written and as intended |
| movie_stats.dfy | `MovieStats` | The current statistics service, as pure functions |
| legacy_movie_stats.dfy | `LegacyMovieStats` | The older statistics service |

The database, the clock and the file readers are parameters:
- the rows read from a file are a `seq<Row>`;
- "today" is a `Date`;
- the stored genres and actors are sets of names;
- the stored reviews are a sequence;
- `user.has_perm` is a function `string -> bool`;
- a failing `objects.create` is a function giving the exception's message, or `None` when the insert succeeds.

## Model

| member | source | states |
|---|---|---|
| ActorImport.ActorImportService.constructor | actors/services/import_service.py:10-15 | A new service has no created records, both counters at 0 and no messages |
| ActorImport.ActorImportService.ValidateName | actors/services/import_service.py:17-22 | Passes exactly when the trimmed name is non-empty; otherwise one skip is recorded, with "Line n+1: Name is required" |
| ActorImport.ActorImportService.ValidateBirthday | actors/services/import_service.py:24-35 | Passes exactly when the birthday parses as YYYY-MM-DD and is not after today; otherwise the future-date or format message is recorded |
| ActorImport.ActorImportService.ValidateNationality | actors/services/import_service.py:37-44 | Passes exactly when the nationality is empty or a stored code (USA, BRA); otherwise a message listing the codes is recorded |
| ActorImport.ActorImportService.ProcessRow | actors/services/import_service.py:46-68 | The state advances by exactly the row's specified outcome; the actor is returned exactly when the row creates one |
| ActorImport.ActorImportService.CreateActor | actors/services/import_service.py:60-68 | A successful insert counts one created actor; a failing one is skipped with "Row n+1: Unexpected error - msg" |
| ActorImport.ActorImportService.ImportActors | actors/services/import_service.py:70-87 | The new state is the old state extended by the fold of every row's outcome, in row order, and the returned triple equals the fields |
| ActorImport.StoredValues | actors/services/import_service.py:39 | The list of stored values has one entry per choice: the first component of each |
| ActorImport.ActorRowOutcome | actors/services/import_service.py:46-68 | How `__process_row` ends: a row is created exactly when it meets the independently stated validity (`ValidActorRow`) and the insert succeeds, and the record is the row's trimmed cells |
| ActorImport.NationalityChoiceList | actors/models.py:5-8 | The accepted codes are USA then BRA, and the rejection message lists "USA, BRA" |
| ActorImport.ActorCreatedIff | actors/services/import_service.py:46-63 | A row creates an actor exactly when it passes all three checks and the insert succeeds; the actor has the trimmed cells |
| ActorImport.ActorChecksInOrder | actors/services/import_service.py:48-58 | Name, birthday, then nationality; the first failing check alone decides the message |
| ActorImport.BlankNameRejected | actors/services/import_service.py:48-50 | A name made only of whitespace is reported as missing |
| ActorImport.BirthdayTodayAccepted | actors/services/import_service.py:27 | A birthday equal to today is not "in the future", and an empty nationality is accepted |
| ActorImport.EmptyBirthdayIsFormatError | actors/services/import_service.py:24-34 | A missing birthday is reported as a format error, not as missing |
| ActorImport.ActorMessageNamesLine | actors/services/import_service.py:19-65 | Every message of a skipped row names that row's line (row number + 1) |
| ActorImport.ActorImportAccounting | actors/services/import_service.py:70-87 | created + skipped = rows read; one message per skipped row, in row order, each naming its line |
| ActorImport.ActorMessagesNameLines | actors/services/import_service.py:80-81 | Over a whole file, each skipped row's message names its own line |
| ActorImport.ValidBatchCreatesAll | actors/services/import_service.py:80-87 | A file of valid rows creates one actor per row, in order, with no message |
| MovieImport.MovieImportService.constructor | movies/services/import_service.py:13-18 | A new service starts with both counters at 0 and no messages |
| MovieImport.MovieImportService.ValidateTitle | movies/services/import_service.py:20-25 | Passes exactly when the title is non-empty; otherwise "Title is required" is recorded |
| MovieImport.MovieImportService.ValidateGenre | movies/services/import_service.py:27-38 | Returns the genre exactly when a genre of that exact name is stored; otherwise records "Genre is required" or the not-found message naming the genre |
| MovieImport.MovieImportService.ParseReleaseDate | movies/services/import_service.py:40-49 | An empty cell gives no date and no error; otherwise the trimmed cell is parsed, or the format error is recorded |
| MovieImport.MovieImportService.ValidateResume | movies/services/import_service.py:51-61 | An empty cell gives no resume; otherwise the trimmed resume is kept if it has at most CSV_LINE_LIMIT characters, else the limit message is recorded |
| MovieImport.MovieImportService.GetActorsByNames | movies/services/import_service.py:63-77 | The list passed to `movie.actors.set` is the stored names among the trimmed, non-blank comma-separated entries |
| MovieImport.MovieImportService.CheckRow | movies/services/import_service.py:80-96 | The checks of one row, run in order, give the row's checked fields exactly when the specification accepts them, recording the first failure otherwise |
| MovieImport.MovieImportService.ProcessRow | movies/services/import_service.py:79-113 | The state advances by exactly the row's specified outcome; the movie is returned exactly when the row creates one |
| MovieImport.MovieImportService.ImportMovies | movies/services/import_service.py:115-132 | The new state is the old state extended by the fold of every row's outcome, and the returned triple equals the fields |
| MovieImport.CleanPieces | movies/services/import_service.py:67 | No name kept from the actors cell is empty |
| MovieImport.MovieRowCheck | movies/services/import_service.py:20-96 | The four checks pass exactly for the rows of `ValidMovieRow`: a non-empty trimmed title, a stored non-empty trimmed genre, an empty or parsing release date, and an empty resume or one of at most 500 trimmed characters |
| MovieImport.MovieRowOutcome | movies/services/import_service.py:79-113 | How `__process_row` ends: a row is created exactly when it is a `ValidMovieRow` and the insert succeeds, with the checked fields |
| MovieImport.MovieCreatedIff | movies/services/import_service.py:79-107 | A row creates a movie exactly when it is a `ValidMovieRow` and the insert succeeds; the movie has the checked fields and the found actors |
| MovieImport.EmptyReleaseDateRowAccepted | movies/services/import_service.py:40-98 | A row with an empty release-date cell whose other fields pass is accepted with no date, and is created unless the insert fails |
| MovieImport.CheckedFields | movies/services/import_service.py:81-98 | A passing row stores a trimmed, non-empty title and a stored genre; no date or resume exactly when that cell is empty; a resume within the limit |
| MovieImport.MovieChecksInOrder | movies/services/import_service.py:81-96 | Title, genre, release date, then resume; only the first failure is reported |
| MovieImport.GenreMessages | movies/services/import_service.py:27-38 | The genre check passes exactly for a non-empty stored name; the two failure messages |
| MovieImport.GenreLookupIsExact | movies/services/import_service.py:34 | The lookup is case-sensitive: "drama" is not found when only "Drama" is stored |
| MovieImport.EmptyReleaseDateAccepted | movies/services/import_service.py:41-42 | An empty release-date cell is not an error |
| MovieImport.BlankReleaseDateRejected | movies/services/import_service.py:41-48 | A non-empty, all-blank release-date cell is a format error |
| MovieImport.ReleaseDateParsed | movies/services/import_service.py:44-48 | A non-empty cell is accepted exactly when its trimmed text parses, giving that date; otherwise the format message |
| MovieImport.DayFirstReleaseDateRejected | movies/services/import_service.py:44-48 | "01-01-2020" is refused as malformed |
| MovieImport.ResumeLimit | movies/services/import_service.py:51-61 | A non-empty resume passes exactly when its trimmed length is at most 500; 500 passes and 501 fails |
| MovieImport.ResumeMessage | movies/services/import_service.py:57 | The limit message reads "Resume exceeds 500 characters" |
| MovieImport.BlankResumeStoredEmpty | movies/services/import_service.py:52-61 | An empty resume is stored as none; an all-blank, non-empty one as the empty string |
| MovieImport.ActorNamesClean | movies/services/import_service.py:67 | Every actor name kept is non-empty, has no edge whitespace and no comma |
| MovieImport.CleanPiecesSpec | movies/services/import_service.py:67 | Kept pieces are trimmed and comma-free when the pieces are |
| MovieImport.FoundActorsSpec | movies/services/import_service.py:70-77 | An actor is attached exactly when listed and stored; there are no more than listed; if all are stored, all are attached |
| MovieImport.UnknownActorsIgnored | movies/services/import_service.py:74-75 | Which actors are stored never changes whether a row is created or what its error is |
| MovieImport.SplitAroundBlank | movies/services/import_service.py:67 | Splitting "a, , b" on commas gives "a", a blank and " b" |
| MovieImport.BlankEntriesDropped | movies/services/import_service.py:67 | "a, , b" names exactly the actors a and b |
| MovieImport.MovieMessageNamesLine | movies/services/import_service.py:22-110 | Every message of a skipped row names that row's line |
| MovieImport.MovieMessagesNameLines | movies/services/import_service.py:125-126 | Over a whole file, each skipped row's message names its own line |
| MovieImport.MovieImportAccounting | movies/services/import_service.py:115-132 | created + skipped = rows read; one message per skipped row, in row order, each naming its line |
| ImportCore.ConcatInitial | actors/services/import_service.py:13-15 | Appending an empty import leaves a state unchanged |
| ImportCore.InitialConcat | actors/services/import_service.py:13-15 | A fresh service that imports a file holds exactly that file's result |
| ImportCore.ConcatApply | actors/services/import_service.py:80-81 | Processing one more row after earlier ones is the same as extending the earlier state |
| ImportCore.LineMessageNamesLine | actors/services/import_service.py:19 | "Line n+1: ..." names line n+1 |
| ImportCore.UnexpectedErrorMessageNamesLine | actors/services/import_service.py:65 | "Row n+1: Unexpected error - ..." names line n+1 |
| ImportCore.FoldCounts | actors/services/import_service.py:61-66 | Each row increments exactly one counter; one message per skipped row; one record per created row |
| ImportCore.FoldErrorsInRowOrder | actors/services/import_service.py:80-81 | The messages are those of the skipped rows, in increasing row order, and every skipped row is listed |
| ImportCore.FoldCreatedInRowOrder | actors/services/import_service.py:80-81 | The records are those of the created rows, in increasing row order, and every created row is listed |
| ImportCore.FoldAllCreated | actors/services/import_service.py:80-87 | If every row creates, nothing is skipped and there are no messages |
| ImportCore.Outcomes | actors/services/import_service.py:80-81 | One outcome per row, each computed from that row and its index |
| ImportCore.RunStep | actors/services/import_service.py:80-81 | The state after row i is the state before it with row i's outcome applied |
| ImportCore.RunIsFold | movies/services/import_service.py:125-126 | The loop's state equals the fold of the per-row outcomes |
| ImportCore.RunAccounting | movies/services/import_service.py:125-132 | The counters add up to the rows, and messages match the skipped rows in order, each naming its line |
| ImportCore.RunAllCreated | movies/services/import_service.py:125-132 | If every row creates, the records are the rows' records in order |
| ImportCore.AllCreatedRows | movies/services/import_service.py:125-126 | If every row creates, the created rows are exactly 0..n-1 |
| ImportActorsCommand.Command.constructor | actors/management/commands/import_actors.py:9-10 | A new command has written nothing |
| ImportActorsCommand.MapFileReader | actors/management/commands/import_actors.py:12-18 | A reader is chosen exactly when the path ends in ".csv" or ".xlsx"; otherwise the ValueError text "Invalid file extension: path" |
| ImportActorsCommand.Command.Write | actors/management/commands/import_actors.py:36 | One styled line is appended to stdout |
| ImportActorsCommand.Command.WriteCounts | actors/management/commands/import_actors.py:36-40 | Writes the three banner lines and the two counters |
| ImportActorsCommand.Command.WriteErrors | actors/management/commands/import_actors.py:44-45 | Writes one "  - error" line per error, in order |
| ImportActorsCommand.Command.WriteSummary | actors/management/commands/import_actors.py:36-48 | Writes the whole summary for a result |
| ImportActorsCommand.Command.RunImport | actors/management/commands/import_actors.py:29-34 | The counters and errors read from the fresh service are those of the import of all the rows |
| ImportActorsCommand.Command.ImportAndReport | actors/management/commands/import_actors.py:29-48 | After the reader is chosen, exactly the summary of the import of all the rows is written |
| ImportActorsCommand.Command.Handle | actors/management/commands/import_actors.py:25-48 | An unsupported extension fails with "Invalid file extension: path" and writes nothing; otherwise the actor import runs on a fresh service and exactly its summary is written |
| ImportActorsCommand.ReaderByExtension | actors/management/commands/import_actors.py:12-18 | ".csv" gives the CSV reader, ".xlsx" the Excel reader, anything else the ValueError message |
| ImportActorsCommand.UpperCaseExtensionRefused | actors/management/commands/import_actors.py:13-18 | The extension test is case-sensitive: "actors.CSV" is refused |
| ImportActorsCommand.ErrorLinesSpec | actors/management/commands/import_actors.py:44-45 | One error line per error, in order, styled as an error |
| ImportActorsCommand.SummaryParts | actors/management/commands/import_actors.py:36-48 | The summary is the counts block, then the optional error block, then the optional banner |
| ImportActorsCommand.CountLinesDiffer | actors/management/commands/import_actors.py:36-40 | The counts block contains neither the error header nor the success banner |
| ImportActorsCommand.ErrorLinesDiffer | actors/management/commands/import_actors.py:43-45 | Error lines are never the header or the banner |
| ImportActorsCommand.SummaryLayout | actors/management/commands/import_actors.py:36-45 | The number of lines, the two counters at lines 3 and 4, and the header and errors in order after them |
| ImportActorsCommand.SummaryErrorSection | actors/management/commands/import_actors.py:42-43 | The error header appears exactly when there are errors |
| ImportActorsCommand.SummaryBanner | actors/management/commands/import_actors.py:47-48 | The success banner closes the output exactly when at least one actor was created |
| ImportActorsCommand.SummarySpec | actors/management/commands/import_actors.py:36-48 | The whole summary layout, both conditional parts as if-and-only-if |
| ImportActorsCommand.CleanImportSummary | actors/management/commands/import_actors.py:30-48 | A file of valid rows reports every row created, no error section, and the banner exactly when the file had a row |
| Permissions.HasObjectPermission | app/permissions.py:6-15 | Without model metadata access is denied; with it, access is exactly the user's permission for the built codename |
| Permissions.ActionSuffix | app/permissions.py:17-28 | The action of a method is always one of view, add, change, delete or the empty string |
| Permissions.ModelPermissionCodename | app/permissions.py:30-40 | A codename exists exactly when the model metadata does (None on the AttributeError branch), and it always holds a "." and a "_", so it is never empty |
| Permissions.ActionTable | app/permissions.py:17-28 | GET, OPTIONS and HEAD map to view, POST to add, PUT and PATCH to change, DELETE to delete; exactly the other methods map to "" |
| Permissions.LookupMissing | app/permissions.py:28 | A key absent from the table gives the default |
| Permissions.LookupRange | app/permissions.py:28 | A lookup gives the default or a value of the table |
| Permissions.ActionValues | app/permissions.py:18-28 | The action is one of view, add, change, delete or empty |
| Permissions.SplitAtFirstOfJoin | app/permissions.py:40 | A dot-free prefix is recovered at the first dot |
| Permissions.CodenameRoundTrip | app/permissions.py:30-40 | The codename parses back into app label, action and model name |
| Permissions.CodenameInjective | app/permissions.py:30-40 | Different models or actions never share a codename |
| Permissions.DeleteNeedsDeleteCapability | app/permissions.py:23-40 | DELETE asks for "<app>.delete_<model>" |
| Permissions.UnknownMethodDecidedByHasPerm | app/permissions.py:12-40 | An unknown method asks for "<app>._<model>", so the user's permissions decide |
| Permissions.NoMetaDenies | app/permissions.py:37-38 | A view whose queryset has no model metadata is denied |
| Permissions.DecisionIgnoresObject | app/permissions.py:6-15 | The object never influences the decision |
| GenreSerializers.ValidateName | apps/genres/serializers.py:7-10 | Refused exactly when numeric, with "A valid string is required."; otherwise the value is returned unchanged |
| GenreSerializers.ValidateGenresSpec | apps/genres/serializers.py:20-36 | The specification of the method: the list is refused exactly when it is empty or some trimmed entry is numeric |
| GenreSerializers.ValidateGenres | apps/genres/serializers.py:20-36 | The loop returns the specified result: empty input refused, the first numeric entry refused, otherwise the cleaned and de-duplicated list |
| GenreSerializers.InKeys | apps/genres/serializers.py:32-33 | A key is seen exactly when some name lowers to it |
| GenreSerializers.KeysAppend | apps/genres/serializers.py:33 | Adding a name adds its lower-case key |
| GenreSerializers.PrefixStep | apps/genres/serializers.py:26-34 | One loop step extends the cleaned, numeric-check and de-duplicated prefixes |
| GenreSerializers.FirstNumericPrefix | apps/genres/serializers.py:30-31 | The first numeric entry of a prefix stays first |
| GenreSerializers.CleanedSpec | apps/genres/serializers.py:27-29 | Kept names are exactly the non-empty trimmed entries |
| GenreSerializers.CleanedIsTrimmed | apps/genres/serializers.py:27 | Kept names have no edge whitespace to trim |
| GenreSerializers.CleanedNotNumeric | apps/genres/serializers.py:30-31 | With no numeric entry, no kept name is numeric |
| GenreSerializers.FirstNumericIff | apps/genres/serializers.py:30-31 | A numeric entry is reported exactly when some trimmed entry is numeric |
| GenreSerializers.DedupKeys | apps/genres/serializers.py:32-34 | De-duplication keeps every lower-case key |
| GenreSerializers.DedupDistinct | apps/genres/serializers.py:32-34 | The result has no two names equal ignoring case |
| GenreSerializers.DedupPositionsSpec | apps/genres/serializers.py:32-34 | Each kept name is the first occurrence of its key, in input order |
| GenreSerializers.DedupSpec | apps/genres/serializers.py:32-34 | The kept names are a subsequence of the input, one per key |
| GenreSerializers.DedupOfDistinct | apps/genres/serializers.py:32-34 | A list without case-insensitive duplicates is kept whole |
| GenreSerializers.CleanedOfTrimmed | apps/genres/serializers.py:27-29 | Trimmed non-empty names are kept whole |
| GenreSerializers.FirstNumericNone | apps/genres/serializers.py:30-31 | Without a numeric entry nothing is refused |
| GenreSerializers.EmptyListRefused | apps/genres/serializers.py:21-22 | The empty list is refused with its message |
| GenreSerializers.NumericRefusesAll | apps/genres/serializers.py:21-31 | The list is refused exactly when empty or holding a numeric entry |
| GenreSerializers.ValidateGenresProperties | apps/genres/serializers.py:20-36 | Accepted output: trimmed non-empty entries, no case-insensitive duplicates, first spellings in input order, every key present |
| GenreSerializers.ValidateGenresIdempotent | apps/genres/serializers.py:20-36 | Validating a non-empty accepted result again returns it unchanged |
| GenreSerializers.BulkPartition | apps/genres/tests/test_views.py:227-286 | A reference for the bulk-create view, inferred from its tests: the names split into new and existing by lower-case key, with none lost |
| GenreSerializers.BulkPartitionCovers | apps/genres/tests/test_views.py:227-286 | A name is new exactly when its key is not stored, existing exactly when it is |
| MovieSerializers.ValidateReleaseDateAsWritten | movies/serializers.py:17-19 | As written: null raises AttributeError (a server error); a date before 1900 is refused; any accepted date validates to None |
| MovieSerializers.ValidateResumeAsWritten | movies/serializers.py:21-23 | As written: null raises TypeError (a server error); more than 500 characters is refused; any accepted resume validates to None |
| MovieSerializers.ValidateReleaseDate | movies/serializers.py:17-19 | As intended: null, and a date of 1900 or later, are kept unchanged; an earlier date is refused with the message naming 1900 |
| MovieSerializers.ValidateResume | movies/serializers.py:21-23 | As intended: null, and a resume of at most 500 characters, are kept unchanged; a longer one is refused with the message naming 500 |
| MovieSerializers.AsWrittenFailsOnNull | movies/serializers.py:18-22 | As written, an explicit null for either nullable field ends in a server error, while the intended validators keep it |
| MovieSerializers.GetRate | movies/serializers.py:43-47 | A rate is given exactly when the movie has reviews whose stars do not sum to zero, and it is the average the statistics report |
| MovieSerializers.ReleaseYearBoundary | movies/tests/serializers/test_moviemodelserializer.py:23-30 | 1899-12-31 is refused with "...less than 1900."; 1900-01-01 is kept |
| MovieSerializers.ResumeLengthBoundary | movies/tests/serializers/test_moviemodelserializer.py:32-39 | 500 characters are kept; 501 are refused with "...more than 500 characters" |
| MovieSerializers.SameVerdicts | movies/serializers.py:17-23 | On a non-null value, the code as written refuses exactly what the intended validators refuse, always with a ValidationError |
| MovieSerializers.AsWrittenDropsValues | movies/serializers.py:17-23 | As written, an accepted date or resume validates to None, not to the value |
| MovieSerializers.AsWrittenMessagesMisstateLimits | movies/serializers.py:19-23 | As written, the messages name 1990 and 200, not the limits 1900 and 500 |
| MovieSerializers.MeanZero | movies/serializers.py:44-45 | A mean is zero exactly when the stars sum to zero |
| MovieSerializers.RateSpec | movies/serializers.py:43-47 | A rate is given exactly when there are reviews with a non-zero sum; it is their mean, in (0, 5] |
| MovieStats.NewService | movies/services/stats_service.py:7-9 | The service keeps the queryset and the review count at construction |
| MovieStats.TotalMovies | movies/services/stats_service.py:11-12 | `queryset.count()`; what is proved about it is in MoviesByGenre and BuildDataCounts |
| MovieStats.MoviesByGenre | movies/services/stats_service.py:14-15 | The group counts add up to the number of movies, and the group names are exactly the genres that occur |
| MovieStats.AverageStars | movies/services/stats_service.py:17-25 | The average is 0 exactly when there are no reviews or the stars sum to zero; with stars in [0, 5] it lies in [0, 5] |
| MovieStats.BuildData | movies/services/stats_service.py:27-35 | The reported groups add up to total_movies and name exactly the queryset's genres |
| MovieStats.BumpNames | movies/services/stats_service.py:15 | Counting one more movie adds its genre to the groups, growing them only for a new genre |
| MovieStats.BumpKeepsNames | movies/services/stats_service.py:15 | Existing groups keep their place; a new genre is appended with count 1 |
| MovieStats.BumpCounts | movies/services/stats_service.py:15 | Only the movie's own genre count goes up by one |
| MovieStats.BumpSum | movies/services/stats_service.py:15 | The counts' sum goes up by one |
| MovieStats.BumpDistinct | movies/services/stats_service.py:15 | Groups stay one per genre |
| MovieStats.GroupNamesCons | movies/services/stats_service.py:15 | The group names are the first group's name plus the rest |
| MovieStats.SumCountsCons | movies/services/stats_service.py:15 | The sum is the first count plus the rest |
| MovieStats.GroupNamesIndex | movies/services/stats_service.py:15 | A name is a group name exactly when some group has it |
| MovieStats.MoviesByGenreSpec | movies/services/stats_service.py:14-15 | One group per distinct genre, each counting that genre's movies (at least 1), the counts summing to total_movies |
| MovieStats.CountGenreZero | movies/services/stats_service.py:15 | A genre not in the queryset counts 0 |
| MovieStats.SumStarsBounds | reviews/models.py:10-16 | Stars in [0, 5] sum to between 0 and 5 per review |
| MovieStats.AverageInRange | movies/services/stats_service.py:17-25 | The average lies in [0, 5] |
| MovieStats.AverageOfReviews | movies/services/stats_service.py:17-25 | No reviews gives 0.0; otherwise the mean of all reviews |
| MovieStats.UniformStars | movies/services/stats_service.py:17-25 | Reviews all of k stars average k |
| MovieStats.SumOfUniform | movies/services/stats_service.py:18 | n reviews of k stars sum to n*k |
| MovieStats.ReviewCountIsSnapshot | movies/services/stats_service.py:9-32 | total_reviews is counted at construction; the average at build time |
| MovieStats.BuildDataCounts | movies/services/stats_service.py:27-35 | total_movies is the queryset size, and the groups partition it |
| MovieStats.EmptyStats | movies/tests/test_stats_service.py:29-37 | An empty queryset and no reviews give 0, no groups, 0 and 0.0 |
| LegacyMovieStats.LegacyFailsWithoutReviews | movies/services/stats.py:17-22 | Without reviews the older build_data fails |
| LegacyMovieStats.ServicesAgreeWithReviews | movies/services/stats.py:17-34 | The older service succeeds exactly when there is a review, and then builds the same data as the newer one |
| LegacyMovieStats.LegacyCounts | movies/services/stats.py:7-15 | Its counts are the queryset size, groups partitioning it, and the review count at construction |
| LegacyMovieStats.LegacyAverageInRange | movies/services/stats.py:17-24 | Its average lies in [0, 5], and a zero sum reports 0 |
| LegacyMovieStats.LegacyAverageStars | movies/services/stats.py:17-24 | Fails exactly when there are no reviews; otherwise it is the newer service's average |
| LegacyMovieStats.LegacyBuildData | movies/services/stats.py:26-34 | Fails exactly when there are no reviews; otherwise it builds the newer service's data |
| Text.StripIdempotent | actors/services/import_service.py:48 | Trimming twice is trimming once |
| Text.Strip | actors/services/import_service.py:48 | `str.strip()`: never longer than its input |
| Text.StripCutsSpace | actors/services/import_service.py:48 | Only whitespace is removed, from both ends; the result is empty exactly when all is whitespace |
| Text.StripNoEdge | movies/services/import_service.py:81 | The trimmed text neither starts nor ends with whitespace |
| Text.StripNoEdgeSpace | movies/services/import_service.py:55 | Text without edge whitespace is unchanged by trimming |
| Text.StripSlice | movies/services/import_service.py:55 | The trimmed text is a contiguous slice of the input |
| Text.LowerIdempotent | apps/genres/serializers.py:32 | Lower-casing twice is lower-casing once |
| Text.Lower | apps/genres/serializers.py:32 | `str.lower()`: the same length as its input |
| Text.IsNumeric | apps/genres/serializers.py:30 | `str.isnumeric()` on the modelled characters: non-empty and all digits; what is proved about it is in FirstNumericIff |
| Text.NatToStringRoundTrip | actors/services/import_service.py:19 | The decimal rendering of a line number reads back as that number |
| Text.NatToStringInjective | actors/services/import_service.py:19 | Different numbers render differently |
| Text.NatToString | actors/services/import_service.py:19 | `str(n)` in an f-string: at least one decimal digit, with no leading zero except for 0 |
| Text.Split | movies/services/import_service.py:67 | Splitting gives at least one piece and no piece holds the separator |
| Text.SplitJoinRoundTrip | movies/services/import_service.py:67 | Joining the pieces with the separator gives back the text |
| Text.Join | actors/services/import_service.py:41 | `sep.join(parts)`; what is proved about it is in SplitJoinRoundTrip |
| Dates.ParseIsoDate | actors/services/import_service.py:26 | Every accepted text names a real calendar date |
| Dates.FormatParseRoundTrip | actors/services/import_service.py:26 | Every valid date, written YYYY-MM-DD, parses back to itself |
| Dates.FormatIsoDate | movies/tests/serializers/test_moviemodelserializer.py:20 | `date.isoformat()` of a valid date: ten characters, digits around two "-". This is what the test's `strftime('%Y-%m-%d')` gives from year 1000 on; below that, glibc's `%Y` does not pad the year |
| Dates.ParsesIsoDay | movies/tests/test_import_service.py:83 | "2020-01-01" parses to 1 January 2020 |
| Dates.ParsesTwentiethCenturyDay | actors/services/import_service.py:26 | "1990-01-01" parses to 1 January 1990 |
| Dates.RejectsDayFirst | movies/tests/test_import_service.py:185-190 | Day-first and empty texts are refused |
| Dates.AcceptsSingleDigitFields | actors/services/import_service.py:26 | One-digit month and day fields are accepted |
| Dates.AcceptsLeapDay | actors/services/import_service.py:26 | 29 February of a leap year is accepted |
| Dates.RejectsLeapDayOfCommonYear | actors/services/import_service.py:26 | 29 February of a common year is refused |
| Dates.LeapDayNeedsLeapYear | actors/services/import_service.py:26 | A YYYY-02-29 text is accepted exactly when its year is a leap year |
| Dates.RejectsLeapDayOfCentury | actors/services/import_service.py:26 | 29 February 1900 is refused (the century rule) |

## Left out

- The file readers (`CSVReader`, `ExcelReader`) are not part of this model. Their rows are a parameter. Cells that pandas reads as NaN or as non-strings are not modelled; every cell is a string and a missing key reads as "".
- Logging (`logger.info`, `warning`, `error`) is left out; it changes no state the services return.
- The database is a parameter. This covers `Actor.objects.create` and `Movie.objects.create` (a function giving the exception text or none), the stored genre and actor names, the stored reviews, and `user.has_perm`. `MultipleObjectsReturned` on a name lookup is not modelled; names are treated as unique.
- Exceptions other than a failed insert are not modelled inside the `try` of `__process_row`. Nothing else in the checked steps can raise once the database is a parameter.
- `movie.actors.set(...)` stores a relation with no order and no duplicates. The model keeps the list passed to it; no many-to-many table is modelled.
- `datetime.now()` is the parameter `today`.
- `ImportActorsCommand.Command.Handle`: the `ValueError` is a `Failure` result rather than an exception. The terminal colour codes of `self.style` are the `Style` tags. The leading "\n" of three lines is part of their text.
- The `import_movies` management command, the views, the URL routing, the view-level `has_permission`, the authentication, the e-mail and Celery tasks, and `genres/serializers.py` (an older copy of the genre serializer) are not part of this model.
- Python's `round(x, 1)` is not modelled: averages are exact rationals. As a consequence, the "`if average_stars else 0`" test uses the unrounded average. The two differ for an average strictly between 0 and 0.05, which Python rounds to 0.0. No int/float distinction is made (0 and 0.0 are both `0.0`).
- MovieStats.MoviesByGenreSpec: the database gives no order for `values('genre__name').annotate(...)`. The model lists groups in order of first appearance, and the contract states only what holds for any order.
- Dates.ParseIsoDate accepts ASCII digits only. Python's `_strptime` matches `\d`, which is any Unicode decimal digit (full-width or Arabic-Indic ones, for example), and `int()` converts them. A birthday or release date written in such digits is a format error in the model and a date in Python.
- Text.Lower and Text.IsNumeric cover a subset of Unicode. `lower` folds ASCII and Latin-1 capitals only. `isnumeric` accepts ASCII digits only, not other numeric characters such as superscripts or CJK numerals. `strip` uses Python's full whitespace set.
- `validate_genres` checks for an empty list before trimming, as the code does. Called on its own, the method lets a list of blanks pass and returns an empty list, and so GenreSerializers.ValidateGenresIdempotent is stated for a non-empty result only. Through the serializer this cannot happen: the child `CharField` trims each entry and refuses a blank one before `validate_genres` runs.
- `has_object_permission` with an unknown HTTP method is not always denied, as the code shows. The codename becomes "<app>._<model>" and the user's permissions decide (Permissions.UnknownMethodDecidedByHasPerm).
- MovieSerializers.GetRate: the round to one decimal is left out, as for the statistics.
- The framework's checks of the bulk serializer run before `validate_genres` and are not modelled: the ListField's `min_length=1`, and the child `CharField`'s `max_length=200` per name, trimming, and refusal of blank names. Only the method is modelled.
- GenreSerializers.BulkPartition: the bulk-create view is not part of this model. BulkPartition is a reference for its split into new and existing names, inferred from apps/genres/tests/test_views.py:227-286.

## Findings

| source | as written | input that shows it | evidently intended | confidence | as-written member | corrected member |
|---|---|---|---|---|---|---|
| movies/serializers.py:17-23 | `validate_release_date` and `validate_resume` have no `return value`, so a value that passes validates to None | release date 2010-07-16, resume "A" | return the value that passed, as the serializer test at movies/tests/serializers/test_moviemodelserializer.py:20 expects | high, not executed | MovieSerializers.AsWrittenDropsValues | MovieSerializers.ValidateReleaseDate, MovieSerializers.ValidateResume |
| movies/serializers.py:19,23 | the messages say "less than 1990" and "more than 200 characters" while the limits are 1900 and 500 | release date 1899-12-31; a resume of 501 characters | messages naming the limits ("less than 1900.", "more than 500 characters"), as the test at lines 30 and 39 expects | high, not executed | MovieSerializers.AsWrittenMessagesMisstateLimits | MovieSerializers.ReleaseYearBoundary, MovieSerializers.ResumeLengthBoundary |
| movies/serializers.py:18,22 | `value.year` and `len(value)` are evaluated on an explicit null, which DRF hands to the validator of a nullable field (movies/models.py:13,18) | a request with `"release_date": null` or `"resume": null` | let null through, since both fields are `null=True` | medium, not executed | MovieSerializers.AsWrittenFailsOnNull | MovieSerializers.ValidateReleaseDate, MovieSerializers.ValidateResume |
